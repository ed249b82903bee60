/**
 The thread-local buffer's string pool and the cache of location strings in front of it
 (dial9-core/src/encoder.rs). The encoder is a pool of distinct strings that a flush empties.
 */
module LocationCache {

  /** Batch generations wrap around at 64 bits. */
  const GENERATIONS: nat := 0x1_0000_0000_0000_0000

  datatype CachedLocation = CachedLocation(text: string, id: nat, generation: nat)

  /** What interning depends on: the current batch's pool, the cache by call site and the batch generation. */
  datatype Interner = Interner(pool: seq<string>, cache: map<nat, CachedLocation>, generation: nat)

  // ----- Interning text -----

  function IndexOf(pool: seq<string>, text: string): (id: nat)
    requires text in pool
    ensures id < |pool| && pool[id] == text
    ensures forall i :: 0 <= i < id ==> pool[i] != text
  {
    if pool[0] == text then 0 else 1 + IndexOf(pool[1..], text)
  }

  /** The pool and the string's ID after interning it. */
  function Interned(pool: seq<string>, text: string): (r: (seq<string>, nat))
    ensures r.1 < |r.0| && r.0[r.1] == text
  {
    if text in pool then (pool, IndexOf(pool, text)) else (pool + [text], |pool|)
  }

  lemma IndexUnique(pool: seq<string>, text: string, id: nat)
    requires id < |pool| && pool[id] == text && forall i :: 0 <= i < id ==> pool[i] != text
    ensures text in pool && IndexOf(pool, text) == id
  {
  }

  /** A string keeps its ID while the pool grows. */
  lemma InternedKeeps(pool: seq<string>, text: string, other: string)
    requires other in pool
    ensures other in Interned(pool, text).0 && IndexOf(Interned(pool, text).0, other) == IndexOf(pool, other)
  {
    IndexUnique(Interned(pool, text).0, other, IndexOf(pool, other));
  }

  /** A string just interned has the ID that was returned. */
  lemma InternedHas(pool: seq<string>, text: string)
    ensures text in Interned(pool, text).0 && IndexOf(Interned(pool, text).0, text) == Interned(pool, text).1
  {
    IndexUnique(Interned(pool, text).0, text, Interned(pool, text).1);
  }

  // ----- The cache -----

  /** Intern a call site's location through the cache; `text` renders a location. */
  function CachedIntern(text: nat -> string, b: Interner, key: nat): (Interner, nat) {
    if key in b.cache && b.cache[key].generation == b.generation then (b, b.cache[key].id)
    else
      var rendered := if key in b.cache then b.cache[key].text else text(key);
      var (pool, id) := Interned(b.pool, rendered);
      (b.(pool := pool, cache := b.cache[key := CachedLocation(rendered, id, b.generation)]), id)
  }

  /** A flush resets the pool and moves to the next generation; wrapping to zero forgets the cache. */
  function FlushedPool(b: Interner): Interner {
    var next := (b.generation + 1) % GENERATIONS;
    Interner([], if next == 0 then map[] else b.cache, next)
  }

  /** No cached generation lies ahead, and an entry of the current generation has its text's ID in the current pool. */
  ghost predicate CacheSound(text: nat -> string, b: Interner) {
    && b.generation < GENERATIONS
    && forall key :: key in b.cache ==>
        && b.cache[key].text == text(key)
        && b.cache[key].generation <= b.generation
        && (b.cache[key].generation == b.generation ==>
              text(key) in b.pool && IndexOf(b.pool, text(key)) == b.cache[key].id)
  }

  /** The cached lookup returns what interning the text would, and leaves the pool as that would. */
  lemma CacheRefines(text: nat -> string, b: Interner, key: nat)
    requires CacheSound(text, b)
    ensures var (b', id) := CachedIntern(text, b, key);
      && (b'.pool, id) == Interned(b.pool, text(key))
      && id < |b'.pool| && b'.pool[id] == text(key)
      && CacheSound(text, b')
  {
    var (b', id) := CachedIntern(text, b, key);
    InternedHas(b.pool, text(key));
    if b' != b {
      TextKeepsCache(text, b, text(key));
    }
  }

  /** Interning any text directly leaves the cache sound. */
  lemma TextKeepsCache(text: nat -> string, b: Interner, s: string)
    requires CacheSound(text, b)
    ensures CacheSound(text, b.(pool := Interned(b.pool, s).0))
  {
    forall key | key in b.cache && b.cache[key].generation == b.generation
      ensures text(key) in Interned(b.pool, s).0 && IndexOf(Interned(b.pool, s).0, text(key)) == b.cache[key].id
    {
      InternedKeeps(b.pool, s, text(key));
    }
  }

  lemma FlushKeepsCache(text: nat -> string, b: Interner)
    requires CacheSound(text, b)
    ensures CacheSound(text, FlushedPool(b))
  {
  }

  // ----- Runs -----

  datatype Use = InternLocation(key: nat) | InternText(text: string) | FlushBatch

  /** The pool after some uses without any cache, and the IDs they returned. */
  function Direct(text: nat -> string, pool: seq<string>, uses: seq<Use>): (seq<string>, seq<nat>) {
    if |uses| == 0 then (pool, [])
    else
      var (before, ids) := Direct(text, pool, uses[..|uses| - 1]);
      match uses[|uses| - 1]
      case InternLocation(key) => var (p, id) := Interned(before, text(key)); (p, ids + [id])
      case InternText(s) => var (p, id) := Interned(before, s); (p, ids + [id])
      case FlushBatch => ([], ids)
  }

  /** The same uses through the cache. */
  function Through(text: nat -> string, b: Interner, uses: seq<Use>): (Interner, seq<nat>) {
    if |uses| == 0 then (b, [])
    else
      var (before, ids) := Through(text, b, uses[..|uses| - 1]);
      match uses[|uses| - 1]
      case InternLocation(key) => var (b', id) := CachedIntern(text, before, key); (b', ids + [id])
      case InternText(s) => var (p, id) := Interned(before.pool, s); (before.(pool := p), ids + [id])
      case FlushBatch => (FlushedPool(before), ids)
  }

  /**
   Over any sequence of interns and flushes, from any generation and so also across the wrap to
   zero, the cache returns the same IDs and builds the same pools as interning the text each time.
   */
  lemma {:induction false} CacheIsTransparent(text: nat -> string, b: Interner, uses: seq<Use>)
    requires CacheSound(text, b)
    ensures Through(text, b, uses).1 == Direct(text, b.pool, uses).1
    ensures Through(text, b, uses).0.pool == Direct(text, b.pool, uses).0
    ensures CacheSound(text, Through(text, b, uses).0)
  {
    if |uses| != 0 {
      CacheIsTransparent(text, b, uses[..|uses| - 1]);
      var before := Through(text, b, uses[..|uses| - 1]).0;
      match uses[|uses| - 1]
      case InternLocation(key) => CacheRefines(text, before, key);
      case InternText(s) => TextKeepsCache(text, before, s);
      case FlushBatch => FlushKeepsCache(text, before);
    }
  }

  /**
   Without clearing the cache at the wrap the lookup would be wrong: an entry of generation zero
   would match again although its pool is long gone.
   */
  lemma StaleWithoutClearing(text: nat -> string, key: nat)
    ensures var b := Interner([text(key)], map[key := CachedLocation(text(key), 0, 0)], 0);
      && CacheSound(text, b)
      && !CacheSound(text, Interner([], b.cache, 0))
      && CachedIntern(text, Interner([], b.cache, 0), key).0.pool == []
  {
    assert IndexOf([text(key)], text(key)) == 0;
    assert text(key) !in [];
    assert key in map[key := CachedLocation(text(key), 0, 0)];
  }

  // ----- The buffer -----

  class ThreadLocalBuffer {
    const text: nat -> string
    const header: nat
    var pool: seq<string>
    var bytesWritten: nat
    var eventCount: nat
    var locationCache: map<nat, CachedLocation>
    var batchGeneration: nat

    ghost function State(): Interner
      reads this
    {
      Interner(pool, locationCache, batchGeneration)
    }

    ghost predicate Valid()
      reads this
    {
      CacheSound(text, State())
    }

    constructor (text: nat -> string, header: nat)
      ensures Valid() && State() == Interner([], map[], 0) && eventCount == 0 && bytesWritten == header
      ensures this.text == text && this.header == header
    {
      this.text := text;
      this.header := header;
      pool, bytesWritten, eventCount := [], header, 0;
      locationCache, batchGeneration := map[], 0;
    }

    method InternString(s: string) returns (id: nat)
      requires Valid()
      modifies this`pool
      ensures Valid() && (pool, id) == Interned(old(pool), s)
    {
      TextKeepsCache(text, State(), s);
      var grown, found := Interned(pool, s).0, Interned(pool, s).1;
      pool := grown;
      id := found;
    }

    /** The ID of a call site's location in the current batch, exactly as interning its text would give it. */
    method InternLocationOf(key: nat) returns (id: nat)
      requires Valid()
      modifies this`pool, this`locationCache
      ensures Valid() && (State(), id) == CachedIntern(text, old(State()), key)
      ensures (pool, id) == Interned(old(pool), text(key))
    {
      ghost var before := State();
      CacheRefines(text, before, key);
      if key in locationCache {
        var cached := locationCache[key];
        if cached.generation != batchGeneration {
          id := InternString(cached.text);
          locationCache := locationCache[key := CachedLocation(cached.text, id, batchGeneration)];
        } else {
          id := cached.id;
        }
        return;
      }
      var rendered := text(key);
      id := InternString(rendered);
      locationCache := locationCache[key := CachedLocation(rendered, id, batchGeneration)];
    }

    /** Write an event of `size` encoded bytes. */
    method Encode(size: nat)
      requires Valid()
      modifies this`bytesWritten, this`eventCount
      ensures Valid() && State() == old(State())
      ensures eventCount == old(eventCount) + 1 && bytesWritten == old(bytesWritten) + size
    {
      bytesWritten := bytesWritten + size;
      eventCount := eventCount + 1;
    }

    /** Hand out the current batch and start the next one. */
    method Flush() returns (events: nat, bytes: nat)
      requires Valid()
      modifies this
      ensures Valid() && State() == FlushedPool(old(State()))
      ensures events == old(eventCount) && bytes == old(bytesWritten) && eventCount == 0 && bytesWritten == header
    {
      FlushKeepsCache(text, State());
      events, bytes := eventCount, bytesWritten;
      pool, bytesWritten := [], header;
      batchGeneration := (batchGeneration + 1) % GENERATIONS;
      if batchGeneration == 0 {
        locationCache := map[];
      }
      eventCount := 0;
    }
  }
}
