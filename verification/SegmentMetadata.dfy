/** The metadata entries of a segment and their merge (dial9-core/src/buffer.rs). */
module SegmentMetadata {
  type Entry = (string, string)

  predicate HasKey(entries: seq<Entry>, key: string) {
    exists i :: 0 <= i < |entries| && entries[i].0 == key
  }

  ghost predicate DistinctKeys(entries: seq<Entry>) {
    forall i, j :: 0 <= i < j < |entries| ==> entries[i].0 != entries[j].0
  }

  /** What a reader sees that collects the entries into a map, later entries replacing earlier ones. */
  function AsMap(entries: seq<Entry>): map<string, string> {
    if |entries| == 0 then map[]
    else
      var last := entries[|entries| - 1];
      AsMap(entries[..|entries| - 1])[last.0 := last.1]
  }

  /** `merged` extended by each existing entry whose key it does not hold yet. */
  function Extended(merged: seq<Entry>, existing: seq<Entry>): seq<Entry>
    decreases |existing|
  {
    if |existing| == 0 then merged
    else
      var e := existing[0];
      Extended(if HasKey(merged, e.0) then merged else merged + [e], existing[1..])
  }

  /** The entries after merging `incoming` into `existing`. */
  function Merged(existing: seq<Entry>, incoming: seq<Entry>): seq<Entry> {
    Extended(incoming, existing)
  }

  lemma {:induction false} ExtendedSplit(merged: seq<Entry>, a: seq<Entry>, b: seq<Entry>)
    ensures Extended(merged, a + b) == Extended(Extended(merged, a), b)
    decreases |a|
  {
    if |a| == 0 {
      assert a + b == b;
    } else {
      assert (a + b)[0] == a[0] && (a + b)[1..] == a[1..] + b;
      ExtendedSplit(if HasKey(merged, a[0].0) then merged else merged + [a[0]], a[1..], b);
    }
  }

  lemma {:induction false} ExtendedByKnown(merged: seq<Entry>, known: seq<Entry>)
    requires forall i :: 0 <= i < |known| ==> HasKey(merged, known[i].0)
    ensures Extended(merged, known) == merged
    decreases |known|
  {
    if |known| != 0 {
      ExtendedByKnown(merged, known[1..]);
    }
  }

  /** What an extension adds, it adds again when only the additions are offered. */
  lemma {:induction false} Additions(merged: seq<Entry>, existing: seq<Entry>) returns (added: seq<Entry>)
    ensures Extended(merged, existing) == merged + added
    ensures Extended(merged, added) == merged + added
    decreases |existing|
  {
    if |existing| == 0 {
      added := [];
      assert merged + added == merged;
    } else if HasKey(merged, existing[0].0) {
      added := Additions(merged, existing[1..]);
    } else {
      var first := existing[0];
      var rest := Additions(merged + [first], existing[1..]);
      added := [first] + rest;
      hide HasKey;
      assert added[0] == first && added[1..] == rest;
      assert merged + added == merged + [first] + rest;
    }
  }

  /** Repeating an update changes nothing, whatever the keys. */
  lemma MergeIdempotent(existing: seq<Entry>, incoming: seq<Entry>)
    ensures Merged(Merged(existing, incoming), incoming) == Merged(existing, incoming)
  {
    var added := Additions(incoming, existing);
    ExtendedSplit(incoming, incoming, added);
    ExtendedByKnown(incoming, incoming);
  }

  lemma {:induction false} AsMapFront(entries: seq<Entry>)
    requires |entries| > 0
    ensures AsMap(entries) == map[entries[0].0 := entries[0].1] + AsMap(entries[1..])
  {
    if |entries| > 1 {
      AsMapFront(entries[..|entries| - 1]);
      assert entries[..|entries| - 1][1..] == entries[1..][..|entries| - 2];
    }
  }

  lemma {:induction false} AsMapKeys(entries: seq<Entry>, key: string)
    ensures key in AsMap(entries) <==> HasKey(entries, key)
  {
    if |entries| != 0 {
      AsMapKeys(entries[..|entries| - 1], key);
    }
  }

  lemma UnionKnown(k: string, v: string, rest: map<string, string>, merged: map<string, string>)
    requires k in merged
    ensures (map[k := v] + rest) + merged == rest + merged
  {
  }

  lemma UnionFresh(k: string, v: string, rest: map<string, string>, merged: map<string, string>)
    requires k !in merged && k !in rest
    ensures (map[k := v] + rest) + merged == rest + merged[k := v]
  {
  }

  lemma {:induction false} ExtendedIsUnion(merged: seq<Entry>, existing: seq<Entry>)
    requires DistinctKeys(merged) && DistinctKeys(existing)
    ensures DistinctKeys(Extended(merged, existing))
    ensures AsMap(Extended(merged, existing)) == AsMap(existing) + AsMap(merged)
    decreases |existing|
  {
    if |existing| != 0 {
      var e := existing[0];
      var rest := existing[1..];
      assert DistinctKeys(rest);
      AsMapFront(existing);
      AsMapKeys(merged, e.0);
      if HasKey(merged, e.0) {
        ExtendedIsUnion(merged, rest);
        UnionKnown(e.0, e.1, AsMap(rest), AsMap(merged));
      } else {
        var grown := merged + [e];
        assert grown[..|grown| - 1] == merged;
        ExtendedIsUnion(grown, rest);
        assert !HasKey(rest, e.0);
        AsMapKeys(rest, e.0);
        UnionFresh(e.0, e.1, AsMap(rest), AsMap(merged));
      }
    }
  }

  /** For distinct keys a merge is the map union in which the incoming entries win. */
  lemma MergeIsUnion(existing: seq<Entry>, incoming: seq<Entry>)
    requires DistinctKeys(existing) && DistinctKeys(incoming)
    ensures DistinctKeys(Merged(existing, incoming))
    ensures AsMap(Merged(existing, incoming)) == AsMap(existing) + AsMap(incoming)
  {
    ExtendedIsUnion(incoming, existing);
  }

  /** Merge `incoming` into `existing`; the flag tells whether the entries differ from before, compared by position. */
  method Merge(existing: seq<Entry>, incoming: seq<Entry>) returns (merged: seq<Entry>, changed: bool)
    ensures merged == Merged(existing, incoming)
    ensures changed <==> merged != existing
  {
    merged := incoming;
    for i := 0 to |existing|
      invariant Extended(merged, existing[i..]) == Merged(existing, incoming)
    {
      var e := existing[i];
      assert existing[i..][0] == e && existing[i..][1..] == existing[i + 1..];
      if !HasKey(merged, e.0) {
        merged := merged + [e];
      }
    }
    changed := merged != existing;
  }
}
