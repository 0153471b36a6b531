/** What the protocol keeps: entries leave the caches of `CachedSqlStore` only for a reason. */
module SqlRetention {
  import opened Wrappers
  import opened MemoryCaching
  import opened CacheLaws
  import opened SqlCoherence
  import opened SqlInvariant
  import opened SqlGuarantees

  /** The row that a step stores. */
  function StoredKey<K, V, I>(s: State<K, V, I>, e: Event<K, V, I>): Option<K> {
    if e.Insert? && ReaderOf(s, e.r).Inserting? && e.ttl.Some? && ReaderOf(s, e.r).seen.RowSeen? then
      Some(ReaderOf(s, e.r).seen.key)
    else if e.InsertRow? && ReaderOf(s, e.r).HalfDone? then Some(ReaderOf(s, e.r).key)
    else None
  }

  /** The secondary key whose mapping a step stores. */
  function StoredIndex<K, V, I>(s: State<K, V, I>, e: Event<K, V, I>): Option<I> {
    if e.Insert? && ReaderOf(s, e.r).Inserting? && e.ttl.Some? && ReaderOf(s, e.r).seen.AnswerSeen? then
      Some(ReaderOf(s, e.r).seen.index)
    else None
  }

  /** Storing `key` makes the cache push `other` out. */
  predicate PushesOut<K, V>(c: Lru<K, V>, capacity: nat, key: Option<K>, other: K) {
    key.Some? && key.value !in c.entries && |c.entries| == capacity && c.recency != [] && other == c.recency[0]
  }

  predicate RowLeaves<K, V, I>(s: State<K, V, I>, capacity: nat, e: Event<K, V, I>, k: K)
    requires k in s.cache.entries
  {
    || (e.GetRow? && e.key == k && s.cache.entries[k].expiresAt <= s.now)
    || (e.PurgeRow? && e.key == k)
    || PushesOut(s.cache, capacity, StoredKey(s, e), k)
  }

  predicate MappingLeaves<K, V, I>(s: State<K, V, I>, capacity: nat, e: Event<K, V, I>, i: I)
    requires i in s.indexes.entries
  {
    || (e.GetIndex? && e.index == i && s.indexes.entries[i].expiresAt <= s.now)
    || (e.PurgeIndex? && StageOf(s, e.w).Unindexing? && StageOf(s, e.w).rest != [] && StageOf(s, e.w).rest[0] == i)
    || (e.Sweep? && e.w in s.writers && s.indexes.entries[i].value.Some?
        && s.indexes.entries[i].value.value in s.writers[e.w].primaries)
    || PushesOut(s.indexes, capacity, StoredIndex(s, e), i)
  }

  lemma RowStoring<K(!new), V(!new), I(!new)>(s: State<K, V, I>, capacity: nat, e: Event<K, V, I>, k: K,
    s': State<K, V, I>)
    requires 0 < capacity && WellFormed(s.cache, capacity) && StoredKey(s, e).Some? && s' == AfterRead(s, capacity, e)
    requires k in s.cache.entries
    ensures k !in s'.cache.entries <==> PushesOut(s.cache, capacity, StoredKey(s, e), k)
    ensures k in s'.cache.entries && StoredKey(s, e) != Some(k) ==> s'.cache.entries[k] == s.cache.entries[k]
  {
    var reader := ReaderOf(s, e.r);
    var entry := if e.Insert? then Entry(reader.seen.row, s.now + e.ttl.value)
                 else Entry(Some(reader.value), s.now + e.lifetime);
    assert s'.cache == Inserted(s.cache, capacity, StoredKey(s, e).value, entry);
    StoredAround(s.cache, capacity, StoredKey(s, e).value, entry, k);
  }

  lemma MappingStoring<K(!new), V(!new), I(!new)>(s: State<K, V, I>, capacity: nat, e: Event<K, V, I>, i: I,
    s': State<K, V, I>)
    requires 0 < capacity && WellFormed(s.indexes, capacity) && StoredIndex(s, e).Some?
    requires s' == AfterRead(s, capacity, e) && i in s.indexes.entries
    ensures i !in s'.indexes.entries <==> PushesOut(s.indexes, capacity, StoredIndex(s, e), i)
    ensures i in s'.indexes.entries && StoredIndex(s, e) != Some(i) ==> s'.indexes.entries[i] == s.indexes.entries[i]
  {
    var seen := ReaderOf(s, e.r).seen;
    var entry := Entry(KeyOf(seen.answer), s.now + e.ttl.value);
    assert s'.indexes == Inserted(s.indexes, capacity, seen.index, entry);
    StoredAround(s.indexes, capacity, seen.index, entry, i);
  }

  lemma StoredAround<K, V>(c: Lru<K, V>, capacity: nat, key: K, entry: Entry<V>, other: K)
    requires 0 < capacity && WellFormed(c, capacity) && other in c.entries
    ensures other !in Inserted(c, capacity, key, entry).entries <==> PushesOut(c, capacity, Some(key), other)
    ensures other in Inserted(c, capacity, key, entry).entries && other != key ==>
      Inserted(c, capacity, key, entry).entries[other] == c.entries[other]
  {
    InsertEvictsIff(c, capacity, key, entry, other);
    InsertShape(c, capacity, key, entry);
  }

  lemma ReadKeeps<K(!new), V(!new), I(!new)>(s: State<K, V, I>, capacity: nat, e: Event<K, V, I>,
    s': State<K, V, I>)
    requires ByReader(e) && s' == AfterRead(s, capacity, e)
    ensures StoredKey(s, e).None? ==> s'.cache == s.cache
    ensures StoredIndex(s, e).None? ==> s'.indexes == s.indexes
  {
  }

  lemma WriteKeeps<K(!new), V(!new), I(!new)>(s: State<K, V, I>, e: Event<K, V, I>, s': State<K, V, I>)
    requires ByWriter(e) && Enabled(s, e) && s' == AfterWrite(s, e)
    ensures s'.cache == if e.PurgeRow? then Drop(s.cache, e.key) else s.cache
    ensures s'.indexes ==
      if e.PurgeIndex? then Drop(s.indexes, StageOf(s, e.w).rest[0])
      else if e.Sweep? then DropAll(s.indexes, PointingInto(s.indexes, s.writers[e.w].primaries))
      else s.indexes
  {
  }

  /** Looks at the caches, and the clock. */
  lemma LookKeeps<K(!new), V(!new), I(!new)>(s: State<K, V, I>, capacity: nat, e: Event<K, V, I>,
    s': State<K, V, I>)
    requires !ByReader(e) && !ByWriter(e) && s' == Next(s, capacity, e)
    ensures s'.cache.entries ==
      if e.GetRow? && e.key in s.cache.entries && s.cache.entries[e.key].expiresAt <= s.now
      then s.cache.entries - {e.key} else s.cache.entries
    ensures s'.indexes.entries ==
      if e.GetIndex? && e.index in s.indexes.entries && s.indexes.entries[e.index].expiresAt <= s.now
      then s.indexes.entries - {e.index} else s.indexes.entries
  {
  }

  lemma RowWrite<K(!new), V(!new), I(!new)>(s: State<K, V, I>, e: Event<K, V, I>, k: K, s': State<K, V, I>)
    requires ByWriter(e) && Enabled(s, e) && s' == AfterWrite(s, e) && k in s.cache.entries
    ensures k !in s'.cache.entries <==> e.PurgeRow? && e.key == k
    ensures k in s'.cache.entries ==> s'.cache.entries[k] == s.cache.entries[k]
  {
    WriteKeeps(s, e, s');
  }

  lemma MappingWrite<K(!new), V(!new), I(!new)>(s: State<K, V, I>, e: Event<K, V, I>, i: I, s': State<K, V, I>)
    requires ByWriter(e) && Enabled(s, e) && s' == AfterWrite(s, e) && i in s.indexes.entries
    ensures i !in s'.indexes.entries <==>
      || (e.PurgeIndex? && StageOf(s, e.w).rest[0] == i)
      || (e.Sweep? && s.indexes.entries[i].value.Some?
          && s.indexes.entries[i].value.value in s.writers[e.w].primaries)
    ensures i in s'.indexes.entries ==> s'.indexes.entries[i] == s.indexes.entries[i]
  {
    WriteKeeps(s, e, s');
  }

  lemma RowRead<K(!new), V(!new), I(!new)>(s: State<K, V, I>, capacity: nat, e: Event<K, V, I>, k: K,
    s': State<K, V, I>)
    requires 0 < capacity && WellFormed(s.cache, capacity) && k in s.cache.entries
    requires ByReader(e) && s' == AfterRead(s, capacity, e)
    ensures k !in s'.cache.entries <==> RowLeaves(s, capacity, e, k)
    ensures k in s'.cache.entries && StoredKey(s, e) != Some(k) ==>
      s'.cache.entries[k] == s.cache.entries[k]
  {
    if StoredKey(s, e).Some? {
      RowStoring(s, capacity, e, k, s');
    } else {
      ReadKeeps(s, capacity, e, s');
    }
  }

  lemma RowWritten<K(!new), V(!new), I(!new)>(s: State<K, V, I>, capacity: nat, e: Event<K, V, I>, k: K,
    s': State<K, V, I>)
    requires 0 < capacity && WellFormed(s.cache, capacity) && k in s.cache.entries
    requires ByWriter(e) && Enabled(s, e) && s' == AfterWrite(s, e)
    ensures k !in s'.cache.entries <==> RowLeaves(s, capacity, e, k)
    ensures k in s'.cache.entries && StoredKey(s, e) != Some(k) ==>
      s'.cache.entries[k] == s.cache.entries[k]
  {
    RowWrite(s, e, k, s');
  }

  lemma RowLooked<K(!new), V(!new), I(!new)>(s: State<K, V, I>, capacity: nat, e: Event<K, V, I>, k: K,
    s': State<K, V, I>)
    requires 0 < capacity && WellFormed(s.cache, capacity) && k in s.cache.entries
    requires !ByReader(e) && !ByWriter(e) && s' == Next(s, capacity, e)
    ensures k !in s'.cache.entries <==> RowLeaves(s, capacity, e, k)
    ensures k in s'.cache.entries && StoredKey(s, e) != Some(k) ==>
      s'.cache.entries[k] == s.cache.entries[k]
  {
    LookKeeps(s, capacity, e, s');
  }

  lemma RowStep<K(!new), V(!new), I(!new)>(s: State<K, V, I>, capacity: nat, e: Event<K, V, I>, k: K,
    s': State<K, V, I>)
    requires 0 < capacity && WellFormed(s.cache, capacity) && k in s.cache.entries
    requires Enabled(s, e) && s' == Next(s, capacity, e)
    ensures k !in s'.cache.entries <==> RowLeaves(s, capacity, e, k)
    ensures k in s'.cache.entries && StoredKey(s, e) != Some(k) ==>
      s'.cache.entries[k] == s.cache.entries[k]
  {
    if ByReader(e) {
      RowRead(s, capacity, e, k, s');
    } else if ByWriter(e) {
      RowWritten(s, capacity, e, k, s');
    } else {
      RowLooked(s, capacity, e, k, s');
    }
  }

  lemma MappingRead<K(!new), V(!new), I(!new)>(s: State<K, V, I>, capacity: nat, e: Event<K, V, I>, i: I,
    s': State<K, V, I>)
    requires 0 < capacity && WellFormed(s.indexes, capacity) && i in s.indexes.entries
    requires ByReader(e) && s' == AfterRead(s, capacity, e)
    ensures i !in s'.indexes.entries <==> MappingLeaves(s, capacity, e, i)
    ensures i in s'.indexes.entries && StoredIndex(s, e) != Some(i) ==>
      s'.indexes.entries[i] == s.indexes.entries[i]
  {
    if StoredIndex(s, e).Some? {
      MappingStoring(s, capacity, e, i, s');
    } else {
      ReadKeeps(s, capacity, e, s');
    }
  }

  lemma MappingWritten<K(!new), V(!new), I(!new)>(s: State<K, V, I>, capacity: nat, e: Event<K, V, I>, i: I,
    s': State<K, V, I>)
    requires 0 < capacity && WellFormed(s.indexes, capacity) && i in s.indexes.entries
    requires ByWriter(e) && Enabled(s, e) && s' == AfterWrite(s, e)
    ensures i !in s'.indexes.entries <==> MappingLeaves(s, capacity, e, i)
    ensures i in s'.indexes.entries && StoredIndex(s, e) != Some(i) ==>
      s'.indexes.entries[i] == s.indexes.entries[i]
  {
    MappingWrite(s, e, i, s');
  }

  lemma MappingLooked<K(!new), V(!new), I(!new)>(s: State<K, V, I>, capacity: nat, e: Event<K, V, I>, i: I,
    s': State<K, V, I>)
    requires 0 < capacity && WellFormed(s.indexes, capacity) && i in s.indexes.entries
    requires !ByReader(e) && !ByWriter(e) && s' == Next(s, capacity, e)
    ensures i !in s'.indexes.entries <==> MappingLeaves(s, capacity, e, i)
    ensures i in s'.indexes.entries && StoredIndex(s, e) != Some(i) ==>
      s'.indexes.entries[i] == s.indexes.entries[i]
  {
    LookKeeps(s, capacity, e, s');
  }

  lemma MappingStep<K(!new), V(!new), I(!new)>(s: State<K, V, I>, capacity: nat, e: Event<K, V, I>, i: I,
    s': State<K, V, I>)
    requires 0 < capacity && WellFormed(s.indexes, capacity) && i in s.indexes.entries
    requires Enabled(s, e) && s' == Next(s, capacity, e)
    ensures i !in s'.indexes.entries <==> MappingLeaves(s, capacity, e, i)
    ensures i in s'.indexes.entries && StoredIndex(s, e) != Some(i) ==>
      s'.indexes.entries[i] == s.indexes.entries[i]
  {
    if ByReader(e) {
      MappingRead(s, capacity, e, i, s');
    } else if ByWriter(e) {
      MappingWritten(s, capacity, e, i, s');
    } else {
      MappingLooked(s, capacity, e, i, s');
    }
  }

  /**
   * In every interleaving a cached row leaves exactly when it is looked up after its time, when an
   * invalidation that names it removes it, or when it is the least recent of a full cache and another
   * row is stored; and until it is stored again its entry stays as it is.
   */
  lemma RowsLeaveIff<K(!new), V(!new), I(!new)>(
    start: State<K, V, I>, capacity: nat, events: seq<Event<K, V, I>>, e: Event<K, V, I>, k: K)
    requires IsRun(start, capacity, events + [e]) && k in After(start, capacity, events).cache.entries
    ensures var s, s' := After(start, capacity, events), After(start, capacity, events + [e]);
      && (k !in s'.cache.entries <==> RowLeaves(s, capacity, e, k))
      && (k in s'.cache.entries && StoredKey(s, e) != Some(k) ==> s'.cache.entries[k] == s.cache.entries[k])
  {
    RunOneLess(start, capacity, events, e);
    EveryInterleavingKeepsInv(start, capacity, events);
    RowStep(After(start, capacity, events), capacity, e, k, After(start, capacity, events + [e]));
  }

  /** The same for mappings, which also leave when an invalidation names the row they lead to. */
  lemma MappingsLeaveIff<K(!new), V(!new), I(!new)>(
    start: State<K, V, I>, capacity: nat, events: seq<Event<K, V, I>>, e: Event<K, V, I>, i: I)
    requires IsRun(start, capacity, events + [e]) && i in After(start, capacity, events).indexes.entries
    ensures var s, s' := After(start, capacity, events), After(start, capacity, events + [e]);
      && (i !in s'.indexes.entries <==> MappingLeaves(s, capacity, e, i))
      && (i in s'.indexes.entries && StoredIndex(s, e) != Some(i) ==> s'.indexes.entries[i] == s.indexes.entries[i])
  {
    RunOneLess(start, capacity, events, e);
    EveryInterleavingKeepsInv(start, capacity, events);
    MappingStep(After(start, capacity, events), capacity, e, i, After(start, capacity, events + [e]));
  }
}
