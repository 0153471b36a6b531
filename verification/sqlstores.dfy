/**
 * `CachedSqlStore` itself: the two caches, the generation counter, and the stretches of `find`,
 * `find_by_index` and the invalidations that run under the gate.
 */
module SqlStores {
  import opened Wrappers
  import opened Sequences
  import opened MemoryCaching
  import opened SqlCoherence

  /** What an invalidation leaves of the index cache. */
  function MappingsLeft<K, I>(indexes: Lru<I, Option<K>>, primaries: set<K>, keys: seq<I>): Lru<I, Option<K>> {
    DropAll(indexes, PointingInto(indexes, primaries) + Elements(keys))
  }

  /** All the rows a writer still has to purge, in some order. */
  ghost function RowsPurged<K(!new), V(!new), I(!new)>(s: State<K, V, I>, capacity: nat, w: nat): State<K, V, I>
    requires StageOf(s, w).Purging?
    decreases |StageOf(s, w).left|
  {
    if StageOf(s, w).left == {} then s
    else
      var k :| k in StageOf(s, w).left;
      RowsPurged(Next(s, capacity, PurgeRow(w, k)), capacity, w)
  }

  ghost function IndexesPurged<K(!new), V(!new), I(!new)>(s: State<K, V, I>, capacity: nat, w: nat): State<K, V, I>
    requires StageOf(s, w).Unindexing?
    decreases |StageOf(s, w).rest|
  {
    if StageOf(s, w).rest == [] then s else IndexesPurged(Next(s, capacity, PurgeIndex(w)), capacity, w)
  }

  lemma PurgedOne<K(!new), V(!new), I(!new)>(s: State<K, V, I>, capacity: nat, w: nat, k: K, next: State<K, V, I>)
    requires StageOf(s, w).Purging? && Coherent(s.cache) && k in StageOf(s, w).left
    requires next == Next(s, capacity, PurgeRow(w, k))
    ensures Coherent(next.cache) && next.indexes == s.indexes
    ensures StageOf(next, w) == Purging(StageOf(s, w).left - {k})
    ensures next.writers[w].primaries == s.writers[w].primaries && next.writers[w].keys == s.writers[w].keys
    ensures DropAll(next.cache, StageOf(s, w).left - {k}) == DropAll(s.cache, StageOf(s, w).left)
  {
    DropOneThenRest(s.cache, k, StageOf(s, w).left);
  }

  lemma DropOneThenRest<K, V>(c: Lru<K, V>, k: K, left: set<K>)
    requires Coherent(c) && k in left
    ensures Coherent(Drop(c, k))
    ensures DropAll(Drop(c, k), left - {k}) == DropAll(c, left)
  {
    var rest := left - {k};
    assert left == {k} + rest;
    DropIsDropAll(c, k);
    DropWellFormed(c, k, |c.entries|);
    DropTwice(c, {k}, rest);
  }

  lemma {:induction false} PurgingRows<K(!new), V(!new), I(!new)>(s: State<K, V, I>, capacity: nat, w: nat)
    requires StageOf(s, w).Purging? && Coherent(s.cache)
    ensures var s' := RowsPurged(s, capacity, w);
      && s'.cache == DropAll(s.cache, StageOf(s, w).left) && s'.indexes == s.indexes
      && StageOf(s', w) == Purging({}) && s'.writers[w].primaries == s.writers[w].primaries
      && s'.writers[w].keys == s.writers[w].keys
    decreases |StageOf(s, w).left|
  {
    var left := StageOf(s, w).left;
    if left == {} {
      KeepAll(s.cache);
    } else {
      var k :| k in left && RowsPurged(s, capacity, w) == RowsPurged(Next(s, capacity, PurgeRow(w, k)), capacity, w);
      var next := Next(s, capacity, PurgeRow(w, k));
      PurgedOne(s, capacity, w, k, next);
      PurgingRows(next, capacity, w);
    }
  }

  lemma UnindexedOne<K(!new), V(!new), I(!new)>(s: State<K, V, I>, capacity: nat, w: nat)
    requires StageOf(s, w).Unindexing? && StageOf(s, w).rest != [] && Coherent(s.indexes)
    ensures var s', rest := Next(s, capacity, PurgeIndex(w)), StageOf(s, w).rest;
      && StageOf(s', w) == Unindexing(rest[1..]) && s'.cache == s.cache
      && s'.indexes == DropAll(s.indexes, {rest[0]}) && Coherent(s'.indexes)
  {
    var index := StageOf(s, w).rest[0];
    DropIsDropAll(s.indexes, index);
    DropAllCoherent(s.indexes, {index});
  }

  lemma {:induction false} PurgingIndexes<K(!new), V(!new), I(!new)>(s: State<K, V, I>, capacity: nat, w: nat)
    requires StageOf(s, w).Unindexing? && Coherent(s.indexes)
    ensures var s' := IndexesPurged(s, capacity, w);
      && s'.cache == s.cache && s'.indexes == DropAll(s.indexes, Elements(StageOf(s, w).rest))
    decreases |StageOf(s, w).rest|
  {
    var rest := StageOf(s, w).rest;
    if rest == [] {
      assert Elements(rest) == {};
      KeepAll(s.indexes);
    } else {
      UnindexedOne(s, capacity, w);
      PurgingIndexes(Next(s, capacity, PurgeIndex(w)), capacity, w);
      DropTwice(s.indexes, {rest[0]}, Elements(rest[1..]));
      ElementsCons(rest[0], rest[1..]);
      assert [rest[0]] + rest[1..] == rest;
    }
  }

  /** An invalidation that runs without interruption leaves the caches as `InvalidateRelated` does. */
  lemma InvalidationInOneGo<K(!new), V(!new), I(!new)>(s: State<K, V, I>, capacity: nat, w: nat)
    returns (bumped: State<K, V, I>, purged: State<K, V, I>, swept: State<K, V, I>, done: State<K, V, I>)
    requires StageOf(s, w).Committed? || StageOf(s, w).Ready?
    requires Coherent(s.cache) && Coherent(s.indexes)
    ensures bumped == Next(s, capacity, Bump(w)) && StageOf(bumped, w).Purging?
      && purged == RowsPurged(bumped, capacity, w)
    ensures StageOf(purged, w) == Purging({}) && swept == Next(purged, capacity, Sweep(w))
    ensures StageOf(swept, w).Unindexing? && done == IndexesPurged(swept, capacity, w)
    ensures done.cache == DropAll(s.cache, s.writers[w].primaries)
    ensures done.indexes == MappingsLeft(s.indexes, s.writers[w].primaries, s.writers[w].keys)
  {
    var primaries, keys := s.writers[w].primaries, s.writers[w].keys;
    bumped := Next(s, capacity, Bump(w));
    assert bumped.cache == s.cache && bumped.indexes == s.indexes && bumped.writers[w].primaries == primaries;
    PurgingRows(bumped, capacity, w);
    purged := RowsPurged(bumped, capacity, w);
    swept := Next(purged, capacity, Sweep(w));
    assert swept.cache == purged.cache && swept.indexes == DropAll(s.indexes, PointingInto(s.indexes, primaries));
    DropAllCoherent(s.indexes, PointingInto(s.indexes, primaries));
    PurgingIndexes(swept, capacity, w);
    done := IndexesPurged(swept, capacity, w);
    DropTwice(s.indexes, PointingInto(s.indexes, primaries), Elements(keys));
  }

  lemma DropTwice<K, V>(c: Lru<K, V>, a: set<K>, b: set<K>)
    requires Coherent(c)
    ensures DropAll(DropAll(c, a), b) == DropAll(c, a + b)
  {
    var d := DropAll(c, a);
    RestrictTwice(c.recency, c.entries.Keys - a, d.entries.Keys - b);
    assert d.entries.Keys == c.entries.Keys - a;
    assert (c.entries.Keys - a) * (d.entries.Keys - b) == c.entries.Keys - (a + b);
    assert c.entries - a - b == c.entries - (a + b);
  }

  // ---------------------------------------------------------------- loads in one go

  /** A lifetime that a load may be given: none only for a missing result. */
  predicate MayLast<K, V, I>(seen: Seen<K, V, I>, lifetime: Option<nat>) {
    if lifetime.Some? then 0 < lifetime.value else SawNothing(seen)
  }

  /** The load may store: no invalidation has begun since it read the generation, and it has a lifetime. */
  predicate Stores<K, V, I>(s: State<K, V, I>, r: nat, lifetime: Option<nat>)
    requires ReaderOf(s, r).Queried?
  {
    ReaderOf(s, r).generation == s.generation && lifetime.Some?
  }

  /** The gated end of a `find`, run without interruption, stores as `StoreRow` does. */
  lemma RowLoadInOneGo<K(!new), V(!new), I(!new)>(s: State<K, V, I>, capacity: nat, r: nat, lifetime: Option<nat>)
    returns (gated: State<K, V, I>, done: State<K, V, I>)
    requires ReaderOf(s, r).Queried? && ReaderOf(s, r).seen.RowSeen? && s.gate.Free?
    requires MayLast(ReaderOf(s, r).seen, lifetime)
    ensures gated == Next(s, capacity, TakeGate(r))
    ensures if ReaderOf(s, r).generation == s.generation
            then Enabled(gated, Insert(r, lifetime)) && done == Next(gated, capacity, Insert(r, lifetime))
            else done == gated
    ensures done.indexes == s.indexes
    ensures var seen := ReaderOf(s, r).seen;
      done.cache == if !Stores(s, r, lifetime) then s.cache
                    else Inserted(s.cache, capacity, seen.key, Entry(seen.row, s.now + lifetime.value))
    ensures ReaderOf(done, r).Finished? && done.gate.Free?
  {
    gated := Next(s, capacity, TakeGate(r));
    done := if ReaderOf(s, r).generation == s.generation then Next(gated, capacity, Insert(r, lifetime)) else gated;
  }

  /** The gated end of a `find_by_index` up to the mapping. */
  lemma MappingLoad<K(!new), V(!new), I(!new)>(s: State<K, V, I>, capacity: nat, r: nat, lifetime: Option<nat>)
    returns (gated: State<K, V, I>, mapped: State<K, V, I>)
    requires ReaderOf(s, r).Queried? && ReaderOf(s, r).seen.AnswerSeen? && s.gate.Free?
    requires MayLast(ReaderOf(s, r).seen, lifetime)
    ensures gated == Next(s, capacity, TakeGate(r)) && mapped.cache == s.cache && mapped.now == s.now
    ensures if ReaderOf(s, r).generation == s.generation
            then Enabled(gated, Insert(r, lifetime)) && mapped == Next(gated, capacity, Insert(r, lifetime))
            else mapped == gated
    ensures var seen := ReaderOf(s, r).seen;
      mapped.indexes ==
        if !Stores(s, r, lifetime) then s.indexes
        else Inserted(s.indexes, capacity, seen.index, Entry(KeyOf(seen.answer), s.now + lifetime.value))
    ensures var answer := ReaderOf(s, r).seen.answer;
      if Stores(s, r, lifetime) && answer.Some?
      then ReaderOf(mapped, r) == HalfDone(answer.value.0, answer.value.1, s.generation)
      else ReaderOf(mapped, r).Finished? && mapped.gate.Free?
  {
    gated := Next(s, capacity, TakeGate(r));
    mapped := if ReaderOf(s, r).generation == s.generation then Next(gated, capacity, Insert(r, lifetime)) else gated;
  }

  /** The row that a found mapping leads to goes in last, and the gate is free again. */
  lemma RowAfterMapping<K(!new), V(!new), I(!new)>(s: State<K, V, I>, capacity: nat, r: nat, lifetime: nat)
    returns (done: State<K, V, I>)
    requires ReaderOf(s, r).HalfDone? && 0 < lifetime
    ensures Enabled(s, InsertRow(r, lifetime)) && done == Next(s, capacity, InsertRow(r, lifetime))
    ensures done.indexes == s.indexes
    ensures var half := ReaderOf(s, r);
      done.cache == Inserted(s.cache, capacity, half.key, Entry(Some(half.value), s.now + lifetime))
    ensures ReaderOf(done, r).Finished? && done.gate.Free?
  {
    done := Next(s, capacity, InsertRow(r, lifetime));
  }

  /** And then the row, as `StoreAnswer` does. */
  lemma AnswerLoadInOneGo<K(!new), V(!new), I(!new)>(s: State<K, V, I>, capacity: nat, r: nat, lifetime: Option<nat>)
    returns (gated: State<K, V, I>, mapped: State<K, V, I>, done: State<K, V, I>)
    requires ReaderOf(s, r).Queried? && ReaderOf(s, r).seen.AnswerSeen? && s.gate.Free?
    requires MayLast(ReaderOf(s, r).seen, lifetime)
    ensures gated == Next(s, capacity, TakeGate(r))
    ensures if ReaderOf(s, r).generation == s.generation
            then Enabled(gated, Insert(r, lifetime)) && mapped == Next(gated, capacity, Insert(r, lifetime))
            else mapped == gated
    ensures ReaderOf(mapped, r).HalfDone? ==> lifetime.Some?
    ensures ReaderOf(mapped, r).HalfDone? ==>
      Enabled(mapped, InsertRow(r, lifetime.value)) && done == Next(mapped, capacity, InsertRow(r, lifetime.value))
    ensures !ReaderOf(mapped, r).HalfDone? ==> done == mapped
    ensures var seen := ReaderOf(s, r).seen;
      done.indexes == if !Stores(s, r, lifetime) then s.indexes
                      else Inserted(s.indexes, capacity, seen.index, Entry(KeyOf(seen.answer), s.now + lifetime.value))
    ensures var answer := ReaderOf(s, r).seen.answer;
      done.cache == if !Stores(s, r, lifetime) || answer.None? then s.cache
                    else Inserted(s.cache, capacity, answer.value.0,
                                  Entry(Some(answer.value.1), s.now + lifetime.value))
    ensures ReaderOf(done, r).Finished? && done.gate.Free?
  {
    gated, mapped := MappingLoad(s, capacity, r, lifetime);
    if Stores(s, r, lifetime) && ReaderOf(s, r).seen.answer.Some? {
      done := RowAfterMapping(mapped, capacity, r, lifetime.value);
    } else {
      done := mapped;
    }
  }

  // ---------------------------------------------------------------- the store

  /** `scrambled` is what the generator makes of the running number of the insert: any number. */
  function JitteredTtl(base: nat, jitter: nat, scrambled: nat): (ttl: nat)
    ensures base <= ttl <= base + jitter
  {
    if jitter == 0 then base else base + scrambled % (jitter + 1)
  }

  /** Every addition up to the jitter occurs, and no other. */
  lemma EveryJitterOccurs(base: nat, jitter: nat, ttl: nat)
    ensures (exists scrambled {:trigger JitteredTtl(base, jitter, scrambled)} ::
               JitteredTtl(base, jitter, scrambled) == ttl) <==> base <= ttl <= base + jitter
  {
    if base <= ttl <= base + jitter {
      assert JitteredTtl(base, jitter, ttl - base) == ttl;
    }
  }

  /** The mapping leads to one of these rows. */
  predicate LeadsInto<K(==)>(to: Option<K>, primaries: seq<K>) {
    to.Some? && to.value in primaries
  }

  class CachedSqlStore<K(==), V, I(==)> {
    const cache: MemoryCache<K, Option<V>>
    const indexes: MemoryCache<I, Option<K>>
    const ttl: nat
    const notFoundTtl: Option<nat>
    const ttlJitter: nat
    var generation: nat
    var expirySequence: nat

    ghost predicate Valid()
      reads this, cache, indexes
    {
      && cache as object != indexes as object
      && cache.Valid() && indexes.Valid()
      && 0 < ttl && (notFoundTtl.Some? ==> 0 < notFoundTtl.value)
    }

    constructor (capacity: nat, ttl: nat, notFoundTtl: Option<nat>, ttlJitter: nat)
      requires 0 < capacity && 0 < ttl && (notFoundTtl.Some? ==> 0 < notFoundTtl.value)
      ensures Valid() && fresh(cache) && fresh(indexes) && generation == 0
      ensures cache.State() == Lru(map[], []) && indexes.State() == Lru(map[], [])
      ensures cache.capacity == indexes.capacity == capacity
      ensures this.ttl == ttl && this.notFoundTtl == notFoundTtl && this.ttlJitter == ttlJitter
    {
      cache := new MemoryCache(capacity);
      indexes := new MemoryCache(capacity);
      this.ttl, this.notFoundTtl, this.ttlJitter, generation, expirySequence := ttl, notFoundTtl, ttlJitter, 0, 0;
    }

    /**
     * The gated end of `find`: store what the query returned if no invalidation has begun since. A
     * missing row is stored only if missing rows are cached at all, and then for their own time.
     */
    method StoreRow(key: K, row: Option<V>, loaded: nat, scrambled: nat, now: nat)
      requires Valid()
      modifies cache, `expirySequence
      ensures Valid()
      ensures generation != loaded || (row.None? && notFoundTtl.None?) ==>
        cache.State() == old(cache.State()) && expirySequence == old(expirySequence)
      ensures generation == loaded && row.Some? ==>
        cache.State() == Inserted(old(cache.State()), cache.capacity, key,
                                  Entry(row, now + JitteredTtl(ttl, ttlJitter, scrambled)))
      ensures generation == loaded && row.None? && notFoundTtl.Some? ==>
        cache.State() == Inserted(old(cache.State()), cache.capacity, key,
                                  Entry(None, now + JitteredTtl(notFoundTtl.value, ttlJitter, scrambled)))
    {
      if generation == loaded {
        var base := if row.Some? then Some(ttl) else notFoundTtl;
        if base.Some? {
          expirySequence := expirySequence + 1;
          cache.Insert(key, row, JitteredTtl(base.value, ttlJitter, scrambled), now);
        }
      }
    }

    /** The gated end of `find_by_index`: the mapping first, then the row it leads to, for the same time. */
    method StoreAnswer(index: I, answer: Option<(K, V)>, loaded: nat, scrambled: nat, now: nat)
      requires Valid()
      modifies cache, indexes, `expirySequence
      ensures Valid()
      ensures generation != loaded || (answer.None? && notFoundTtl.None?) ==>
        indexes.State() == old(indexes.State()) && expirySequence == old(expirySequence)
      ensures generation != loaded || answer.None? ==> cache.State() == old(cache.State())
      ensures generation == loaded && answer.None? && notFoundTtl.Some? ==>
        indexes.State() == Inserted(old(indexes.State()), indexes.capacity, index,
                                    Entry(None, now + JitteredTtl(notFoundTtl.value, ttlJitter, scrambled)))
      ensures generation == loaded && answer.Some? ==>
        indexes.State() == Inserted(old(indexes.State()), indexes.capacity, index,
                                    Entry(Some(answer.value.0), now + JitteredTtl(ttl, ttlJitter, scrambled)))
      ensures generation == loaded && answer.Some? ==>
        cache.State() == Inserted(old(cache.State()), cache.capacity, answer.value.0,
                                  Entry(Some(answer.value.1), now + JitteredTtl(ttl, ttlJitter, scrambled)))
    {
      if generation == loaded {
        var base := if answer.Some? then Some(ttl) else notFoundTtl;
        if base.Some? {
          expirySequence := expirySequence + 1;
          var lifetime := JitteredTtl(base.value, ttlJitter, scrambled);
          indexes.Insert(index, KeyOf(answer), lifetime, now);
          if answer.Some? {
            cache.Insert(answer.value.0, Some(answer.value.1), lifetime, now);
          }
        }
      }
    }

    method RemoveRows(keys: set<K>)
      requires Valid()
      modifies cache
      ensures Valid() && cache.State() == DropAll(old(cache.State()), keys)
    {
      var left := keys;
      ghost var c, done: set<K> := cache.State(), {};
      assert cache.State() == DropAll(c, done) by { KeepAll(c); }
      while left != {}
        invariant done + left == keys && cache.Valid() && cache.State() == DropAll(c, done)
        decreases left
      {
        var key :| key in left;
        DropAllStep(c, done, key);
        var _ := cache.Remove(key);
        left, done := left - {key}, done + {key};
      }
      assert done == keys;
    }

    method RemoveIndexes(keys: seq<I>)
      requires Valid()
      modifies indexes
      ensures Valid() && indexes.State() == DropAll(old(indexes.State()), Elements(keys))
    {
      ghost var c, done: set<I> := indexes.State(), {};
      assert indexes.State() == DropAll(c, done) by { KeepAll(c); }
      for n := 0 to |keys|
        invariant done == Elements(keys[..n]) && indexes.Valid() && indexes.State() == DropAll(c, done)
      {
        DropAllStep(c, done, keys[n]);
        ElementsOfPrefix(keys, n);
        var _ := indexes.Remove(keys[n]);
        done := done + {keys[n]};
      }
      assert keys[..|keys|] == keys;
    }

    method SweepMappings(primaries: set<K>)
      requires Valid()
      modifies indexes
      ensures Valid()
      ensures indexes.State() == DropAll(old(indexes.State()), PointingInto(old(indexes.State()), primaries))
    {
      var points := (_: I, primary: Option<K>) => primary.Some? && primary.value in primaries;
      assert Matching(indexes.State(), points) == PointingInto(indexes.State(), primaries);
      var _ := indexes.RemoveWhere(points);
    }

    method InvalidateRelated(primaries: seq<K>, keys: seq<I>)
      requires Valid()
      modifies this, cache, indexes
      ensures Valid() && generation == old(generation) + 1
      ensures cache.State() == DropAll(old(cache.State()), Elements(primaries))
      ensures indexes.State() == MappingsLeft(old(indexes.State()), Elements(primaries), keys)
      ensures forall k :: k in cache.entries <==> k in old(cache.entries) && k !in primaries
      ensures forall i :: i in indexes.entries <==>
        i in old(indexes.entries) && i !in keys && !LeadsInto(old(indexes.entries)[i].value, primaries)
    {
      generation := generation + 1;
      var unique := set k | k in primaries;
      ghost var was := indexes.State();
      RemoveRows(unique);
      SweepMappings(unique);
      RemoveIndexes(keys);
      DropTwice(was, PointingInto(was, unique), Elements(keys));
    }

    method InvalidateMany(keys: seq<K>)
      requires Valid()
      modifies this, cache, indexes
      ensures Valid() && generation == old(generation) + 1
      ensures cache.State() == DropAll(old(cache.State()), Elements(keys))
      ensures indexes.State() == MappingsLeft(old(indexes.State()), Elements(keys), [])
      ensures forall k :: k in cache.entries <==> k in old(cache.entries) && k !in keys
      ensures forall i :: i in indexes.entries <==>
        i in old(indexes.entries) && !LeadsInto(old(indexes.entries)[i].value, keys)
    {
      generation := generation + 1;
      var unique := set k | k in keys;
      RemoveRows(unique);
      SweepMappings(unique);
      assert PointingInto(old(indexes.State()), unique) + Elements<I>([]) == PointingInto(old(indexes.State()), unique);
    }

    method Invalidate(key: K) returns (removed: bool)
      requires Valid()
      modifies this, cache, indexes
      ensures Valid() && generation == old(generation) + 1
      ensures removed <==> key in old(cache.entries)
      ensures cache.State() == DropAll(old(cache.State()), {key})
      ensures indexes.State() == MappingsLeft(old(indexes.State()), {key}, [])
      ensures forall k :: k in cache.entries <==> k in old(cache.entries) && k != key
      ensures forall i :: i in indexes.entries <==>
        i in old(indexes.entries) && !LeadsInto(old(indexes.entries)[i].value, [key])
    {
      generation := generation + 1;
      DropIsDropAll(cache.State(), key);
      var held := cache.Remove(key);
      removed := held.Some?;
      SweepMappings({key});
      assert PointingInto(old(indexes.State()), {key}) + Elements<I>([]) == PointingInto(old(indexes.State()), {key});
    }

    method InvalidateIndex(index: I) returns (removed: bool)
      requires Valid()
      modifies this, indexes
      ensures Valid() && generation == old(generation) + 1
      ensures removed <==> index in old(indexes.entries)
      ensures indexes.State() == MappingsLeft(old(indexes.State()), {}, [index])
      ensures forall i :: i in indexes.entries <==> i in old(indexes.entries) && i != index
    {
      generation := generation + 1;
      DropIsDropAll(indexes.State(), index);
      var held := indexes.Remove(index);
      removed := held.Some?;
      assert PointingInto<K, I>(old(indexes.State()), {}) + Elements([index]) == {index};
    }
  }
}
