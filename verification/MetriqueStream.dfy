/**
 The stream that records metrique entries: one plan per descriptor-ID sequence, found through the
 previous entry's key, an index, or a fresh build (dial9-metrique/src/stream.rs).
 */
module MetriqueStream {
  import opened Wrappers
  import opened MetriquePlan
  import opened MetriqueCapture
  import opened MetriqueWalk
  import opened MetriqueRefinement

  /** The IDs of a descriptor's segments. */
  type Key = seq<nat>

  /** What descriptor IDs stand for: the segments, and the hash of their layout. */
  datatype Described = Described(segments: seq<Segment>, suffix: string)

  /** One entry as it reaches the stream, with what happened around its walk. */
  datatype Entry = Entry(key: Option<Key>, callbacks: seq<Callback>, panics: bool, encoderRan: bool, accepted: bool)

  datatype Fate = NoDescriptor | Inert | Emitted(event: seq<FieldValue>) | Dropped | NotRun

  // ----- Plans by first occurrence -----

  /** The distinct keys, in the order of their first occurrence. */
  function FirstSeen(keys: seq<Key>): seq<Key> {
    if |keys| == 0 then []
    else
      var before := FirstSeen(keys[..|keys| - 1]);
      if keys[|keys| - 1] in before then before else before + [keys[|keys| - 1]]
  }

  /** The schema names in use after building plans for these keys in order. */
  function NamesAfter(describe: Key -> Described, keys: seq<Key>): set<string> {
    if |keys| == 0 then {}
    else
      var n := |keys| - 1;
      var used := NamesAfter(describe, keys[..n]);
      var d := describe(keys[n]);
      SchemaName(EntryName(d.segments), PlanOf(d.segments, d.suffix, used).inert, d.suffix, used).1
  }

  /** The plan of the `i`-th distinct key: built when the earlier ones existed. */
  function PlanAt(describe: Key -> Described, keys: seq<Key>, i: nat): Plan
    requires i < |keys|
  {
    var d := describe(keys[i]);
    PlanOf(d.segments, d.suffix, NamesAfter(describe, keys[..i]))
  }

  lemma {:induction false} FirstSeenDistinct(keys: seq<Key>)
    ensures forall i, j :: 0 <= i < j < |FirstSeen(keys)| ==> FirstSeen(keys)[i] != FirstSeen(keys)[j]
    ensures forall k :: k in FirstSeen(keys) <==> k in keys
  {
    if |keys| != 0 {
      var n := |keys| - 1;
      FirstSeenDistinct(keys[..n]);
      assert keys == keys[..n] + [keys[n]];
    }
  }

  lemma {:induction false} DistinctCount(keys: seq<Key>)
    requires forall i, j :: 0 <= i < j < |keys| ==> keys[i] != keys[j]
    ensures |set k | k in keys| == |keys|
  {
    if |keys| != 0 {
      var n := |keys| - 1;
      DistinctCount(keys[..n]);
      assert keys == keys[..n] + [keys[n]];
      assert (set k | k in keys) == (set k | k in keys[..n]) + {keys[n]};
    } else {
      assert (set k | k in keys) == {};
    }
  }

  /** Plans number exactly the distinct keys seen. */
  lemma PlansNumberKeys(keys: seq<Key>)
    ensures |FirstSeen(keys)| == |set k | k in keys|
  {
    FirstSeenDistinct(keys);
    DistinctCount(FirstSeen(keys));
    assert (set k | k in FirstSeen(keys)) == (set k | k in keys);
  }

  /** Later keys change no plan that exists. */
  lemma PlanStays(describe: Key -> Described, keys: seq<Key>, more: seq<Key>, i: nat)
    requires i < |keys|
    ensures PlanAt(describe, keys + more, i) == PlanAt(describe, keys, i)
  {
    assert (keys + more)[..i] == keys[..i];
  }

  lemma SeenNext(seen: seq<Key>, key: Key)
    ensures FirstSeen(seen + [key]) == if key in FirstSeen(seen) then FirstSeen(seen) else FirstSeen(seen) + [key]
  {
    assert (seen + [key])[..|seen|] == seen;
  }

  /** Whether a plan is inert depends on the descriptor alone. */
  lemma InertAlike(segments: seq<Segment>, suffix: string, used: set<string>)
    ensures PlanOf(segments, suffix, used).inert == PlanOf(segments, "", {}).inert
  {
    hide Built, FieldsOf, SchemaName;
  }

  lemma PlanNames(segments: seq<Segment>, suffix: string, used: set<string>)
    ensures PlanOf(segments, suffix, used).entryName == EntryName(segments)
  {
    hide Built, FieldsOf, SchemaName;
  }

  /** The event is what walking these callbacks against the descriptor's plan gives. */
  ghost predicate IsOutcome(d: Described, pool: seq<string>, callbacks: seq<Callback>, event: seq<FieldValue>) {
    exists names :: Outcome(d.segments, d.suffix, names, pool, callbacks) == Ok(event)
  }

  /**
   The entry's event is emitted: the encoder ran, writing the entry did not panic, its values meet
   the descriptor, and the encoder took the event.
   */
  ghost predicate Emits(d: Described, entry: Entry) {
    entry.encoderRan && !entry.panics && Deliverable(FieldsOf(d.segments), Writes(entry.callbacks)) && entry.accepted
  }

  // ----- The stream -----

  class Dial9Stream {
    const describe: Key -> Described
    var plans: seq<Plan>
    var planIndex: map<Key, nat>
    var lastKey: Key
    var lastPlan: Option<nat>
    var usedNames: set<string>
    var eventsEmitted: nat
    var skippedInert: nat
    var noDescriptor: nat
    var dropped: nat
    /** The keys looked up so far. */
    ghost var seen: seq<Key>

    /** Plans and index are those of the distinct keys seen; the remembered plan is the last key's. */
    ghost predicate Valid()
      reads this`plans, this`planIndex, this`lastKey, this`lastPlan, this`usedNames, this`seen
    {
      var keys := FirstSeen(seen);
      && |plans| == |keys|
      && (forall i :: 0 <= i < |keys| ==> plans[i] == PlanAt(describe, keys, i))
      && (forall k :: k in planIndex <==> k in keys)
      && (forall k :: k in planIndex ==> planIndex[k] < |keys| && keys[planIndex[k]] == k)
      && usedNames == NamesAfter(describe, keys)
      && (lastPlan.Some? ==> lastPlan.value < |keys| && keys[lastPlan.value] == lastKey)
    }

    constructor (describe: Key -> Described)
      ensures Valid() && seen == [] && this.describe == describe
      ensures eventsEmitted == skippedInert == noDescriptor == dropped == 0
    {
      this.describe := describe;
      plans, planIndex, lastKey, lastPlan, usedNames := [], map[], [], None, {};
      eventsEmitted, skippedInert, noDescriptor, dropped := 0, 0, 0, 0;
      seen := [];
    }

    /** The first entry of a key: build its plan behind the others. */
    method AddPlan(key: Key) returns (idx: nat)
      requires Valid() && key !in FirstSeen(seen)
      modifies this`plans, this`planIndex, this`lastKey, this`lastPlan, this`usedNames, this`seen
      ensures Valid() && seen == old(seen) + [key] && idx + 1 == |plans| == |old(plans)| + 1
      ensures lastKey == key && lastPlan == Some(idx) && old(plans) <= plans
    {
      hide PlanAt, NamesAfter, PlanOf, SchemaName;
      SeenNext(seen, key);
      var d := describe(key);
      PlansExtend(describe, FirstSeen(seen), key);
      var plan, names := BuildPlan(d.segments, d.suffix, usedNames);
      PlanNames(d.segments, d.suffix, usedNames);
      plans := plans + [plan];
      planIndex := planIndex[key := |plans| - 1];
      usedNames := names;
      idx := |plans| - 1;
      seen := seen + [key];
      lastKey := key;
      lastPlan := Some(idx);
    }

    /**
     Find the plan of a key: whichever of the last plan, the index or a fresh build serves it, it
     is the one built at the key's first occurrence.
     */
    method PlanFor(key: Key) returns (idx: nat)
      requires Valid()
      modifies this`plans, this`planIndex, this`lastKey, this`lastPlan, this`usedNames, this`seen
      ensures Valid() && seen == old(seen) + [key]
      ensures idx < |plans| && FirstSeen(seen)[idx] == key && plans[idx] == PlanAt(describe, FirstSeen(seen), idx)
      ensures old(plans) <= plans
      ensures |plans| == |old(plans)| + if key in old(FirstSeen(seen)) then 0 else 1
    {
      hide PlanAt, NamesAfter;
      SeenNext(seen, key);
      if lastPlan.Some? && key == lastKey {
        idx := lastPlan.value;
      } else if key in planIndex {
        idx := planIndex[key];
      } else {
        idx := AddPlan(key);
        return;
      }
      seen := seen + [key];
      lastKey := key;
      lastPlan := Some(idx);
    }

    /** The event of a non-inert entry, if its walk succeeds and the encoder takes it. */
    method Encode(entry: Entry, idx: nat, ghost names: set<string>, pool: seq<string>) returns (fate: Fate)
      requires entry.key.Some? && idx < |plans|
      requires var d := describe(entry.key.value); plans[idx] == PlanOf(d.segments, d.suffix, names)
      modifies this`dropped, this`eventsEmitted
      ensures fate == NotRun <==> !entry.encoderRan
      ensures fate.Emitted? <==> Emits(describe(entry.key.value), entry)
      ensures fate == Dropped <==> entry.encoderRan && !Emits(describe(entry.key.value), entry)
      ensures dropped == old(dropped) + (if fate.Dropped? then 1 else 0)
      ensures eventsEmitted == old(eventsEmitted) + (if fate.Emitted? then 1 else 0)
      ensures fate.Emitted? ==> IsOutcome(describe(entry.key.value), pool, entry.callbacks, fate.event)
    {
      ghost var d := describe(entry.key.value);
      OutcomeIs(d.segments, d.suffix, names, pool, entry.callbacks);
      RecordedIff(d.segments, d.suffix, names, pool, entry.callbacks);
      hide PlanOf, Outcome, AfterAll, Finished, Deliverable, FieldsOf, Writes;
      if !entry.encoderRan {
        return NotRun;
      }
      if entry.panics {
        dropped := dropped + 1;
        return Dropped;
      }
      var result := WalkEntry(plans[idx], pool, entry.callbacks);
      if !result.Ok? || !entry.accepted {
        dropped := dropped + 1;
        return Dropped;
      }
      eventsEmitted := eventsEmitted + 1;
      assert Outcome(d.segments, d.suffix, names, pool, entry.callbacks) == Ok(result.values);
      return Emitted(result.values);
    }

    /** The plan's facts that recording an entry relies on. */
    method Prepare(key: Key) returns (idx: nat, ghost names: set<string>)
      requires Valid()
      modifies this`plans, this`planIndex, this`lastKey, this`lastPlan, this`usedNames, this`seen
      ensures Valid() && seen == old(seen) + [key] && idx < |plans|
      ensures plans[idx] == PlanOf(describe(key).segments, describe(key).suffix, names)
      ensures plans[idx].inert <==> PlanOf(describe(key).segments, "", {}).inert
    {
      idx := PlanFor(key);
      ghost var d := describe(key);
      names := NamesAfter(describe, FirstSeen(seen)[..idx]);
      assert plans[idx] == PlanOf(d.segments, d.suffix, names);
      hide *;
      InertAlike(d.segments, d.suffix, names);
    }

    /** Record one entry; every entry that gets past the enabled check has exactly one fate. */
    method Next(enabled: bool, entry: Entry, pool: seq<string>) returns (fate: Option<Fate>)
      requires Valid()
      modifies this
      ensures Valid()
      ensures fate.None? <==> !enabled
      ensures !enabled ==> seen == old(seen) && plans == old(plans)
      ensures enabled ==> seen == old(seen) + (if entry.key.Some? then [entry.key.value] else [])
      ensures enabled ==> (fate == Some(NoDescriptor) <==> entry.key.None?)
      ensures enabled && entry.key.Some? ==>
        (fate == Some(Inert) <==> PlanOf(describe(entry.key.value).segments, "", {}).inert)
      ensures enabled && entry.key.Some? && fate != Some(Inert) ==>
        && (fate == Some(NotRun) <==> !entry.encoderRan)
        && (fate.value.Emitted? <==> Emits(describe(entry.key.value), entry))
        && (fate == Some(Dropped) <==> entry.encoderRan && !Emits(describe(entry.key.value), entry))
      ensures fate.Some? && fate.value.Emitted? ==>
        entry.key.Some? && IsOutcome(describe(entry.key.value), pool, entry.callbacks, fate.value.event)
      ensures noDescriptor == old(noDescriptor) + (if fate == Some(NoDescriptor) then 1 else 0)
      ensures skippedInert == old(skippedInert) + (if fate == Some(Inert) then 1 else 0)
      ensures dropped == old(dropped) + (if fate == Some(Dropped) then 1 else 0)
      ensures eventsEmitted == old(eventsEmitted) + (if fate.Some? && fate.value.Emitted? then 1 else 0)
    {
      hide *;
      if !enabled {
        return None;
      }
      if entry.key.None? {
        noDescriptor := noDescriptor + 1;
        return Some(NoDescriptor);
      }
      ghost var names;
      var idx;
      idx, names := Prepare(entry.key.value);
      if plans[idx].inert {
        skippedInert := skippedInert + 1;
        return Some(Inert);
      }
      var encoded := Encode(entry, idx, names, pool);
      return Some(encoded);
    }
  }

  /** Feed an entry's callbacks to a walk and finish it. */
  method WalkEntry(plan: Plan, pool: seq<string>, callbacks: seq<Callback>) returns (result: Finish)
    requires var s := AfterAll(plan.actions, pool, callbacks);
      && (s.missingRequired.Some? ==> |HEADERS| + s.missingRequired.value < |plan.fields|)
      && |s.values| >= |PLACEHOLDERS|
    ensures result == Finished(plan, AfterAll(plan.actions, pool, callbacks))
  {
    var walk := new EntryWalk(plan, pool);
    for i := 0 to |callbacks|
      invariant walk.plan == plan && walk.State() == AfterAll(plan.actions, pool, callbacks[..i])
    {
      assert callbacks[..i + 1][..i] == callbacks[..i];
      match callbacks[i] {
        case Timestamp(nanos) => walk.OnTimestamp(nanos);
        case ValueOf(_, w) => walk.OnValue(w);
      }
    }
    assert callbacks[..|callbacks|] == callbacks;
    result := walk.Complete();
  }

  /** A new key adds its plan behind the others. */
  lemma PlansExtend(describe: Key -> Described, keys: seq<Key>, key: Key)
    ensures PlanAt(describe, keys + [key], |keys|)
         == PlanOf(describe(key).segments, describe(key).suffix, NamesAfter(describe, keys))
    ensures forall i :: 0 <= i < |keys| ==> PlanAt(describe, keys + [key], i) == PlanAt(describe, keys, i)
    ensures NamesAfter(describe, keys + [key])
         == (var d, used := describe(key), NamesAfter(describe, keys);
             SchemaName(EntryName(d.segments), PlanOf(d.segments, d.suffix, used).inert, d.suffix, used).1)
  {
    assert (keys + [key])[..|keys|] == keys;
    forall i | 0 <= i < |keys|
      ensures PlanAt(describe, keys + [key], i) == PlanAt(describe, keys, i)
    {
      PlanStays(describe, keys, [key], i);
    }
  }
}
