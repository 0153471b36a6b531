/** What each step of the coherence protocol does to a cached row and to a cached mapping. */
module SqlSteps {
  import opened Wrappers
  import opened MemoryCaching
  import opened SqlCoherence

  lemma InsertedEntry<K, V>(c: Lru<K, V>, capacity: nat, key: K, entry: Entry<V>, k: K)
    requires 0 < capacity && WellFormed(c, capacity) && k in Inserted(c, capacity, key, entry).entries
    ensures k == key ==> Inserted(c, capacity, key, entry).entries[k] == entry
    ensures k != key ==> k in c.entries && Inserted(c, capacity, key, entry).entries[k] == c.entries[k]
  {
    InsertShape(c, capacity, key, entry);
    InsertKeepsNewest(c, capacity, key, entry);
  }

  /** The row a step puts into the cache, if it puts one. */
  ghost predicate StoresRow<K(!new), V(!new), I(!new)>(s: State<K, V, I>, e: Event<K, V, I>, k: K, row: Option<V>)
    requires Enabled(s, e)
  {
    if e.Insert? then
      e.ttl.Some? && ReaderOf(s, e.r).seen == RowSeen(k, row)
    else
      e.InsertRow? && ReaderOf(s, e.r).key == k && row == Some(ReaderOf(s, e.r).value)
  }

  lemma CacheEntryAfterInsert<K(!new), V(!new), I(!new)>(s: State<K, V, I>, capacity: nat, r: nat, ttl: Option<nat>,
      k: K)
    requires 0 < capacity && WellFormed(s.cache, capacity) && ReaderOf(s, r).Inserting?
    requires k in AfterInsert(s, capacity, r, ttl).cache.entries
    ensures var row := AfterInsert(s, capacity, r, ttl).cache.entries[k].value;
      || (ttl.Some? && ReaderOf(s, r).seen == RowSeen(k, row))
      || (k in s.cache.entries && row == s.cache.entries[k].value)
  {
    if ttl.Some? && ReaderOf(s, r).seen.RowSeen? {
      var seen := ReaderOf(s, r).seen;
      InsertedEntry(s.cache, capacity, seen.key, Entry(seen.row, s.now + ttl.value), k);
    }
  }

  lemma CacheEntryAfterRead<K(!new), V(!new), I(!new)>(s: State<K, V, I>, capacity: nat, e: Event<K, V, I>, k: K)
    requires 0 < capacity && WellFormed(s.cache, capacity) && Enabled(s, e) && ByReader(e)
    requires k in AfterRead(s, capacity, e).cache.entries
    ensures var row := AfterRead(s, capacity, e).cache.entries[k].value;
      StoresRow(s, e, k, row) || (k in s.cache.entries && row == s.cache.entries[k].value)
  {
    if e.Insert? {
      CacheEntryAfterInsert(s, capacity, e.r, e.ttl, k);
    } else if e.InsertRow? {
      var reader := ReaderOf(s, e.r);
      InsertedEntry(s.cache, capacity, reader.key, Entry(Some(reader.value), s.now + e.lifetime), k);
    }
  }

  lemma CacheEntryAfterWrite<K(!new), V(!new), I(!new)>(s: State<K, V, I>, e: Event<K, V, I>, k: K)
    requires Enabled(s, e) && ByWriter(e)
    requires k in AfterWrite(s, e).cache.entries
    ensures k in s.cache.entries && AfterWrite(s, e).cache.entries[k] == s.cache.entries[k]
    ensures !(e.PurgeRow? && e.key == k)
  {
  }

  lemma CacheEntryAfter<K(!new), V(!new), I(!new)>(s: State<K, V, I>, capacity: nat, e: Event<K, V, I>, k: K)
    requires 0 < capacity && WellFormed(s.cache, capacity) && Enabled(s, e)
    requires k in Next(s, capacity, e).cache.entries
    ensures var row := Next(s, capacity, e).cache.entries[k].value;
      || StoresRow(s, e, k, row)
      || (k in s.cache.entries && row == s.cache.entries[k].value && !(e.PurgeRow? && e.key == k))
  {
    if ByReader(e) {
      CacheEntryAfterRead(s, capacity, e, k);
    } else if ByWriter(e) {
      CacheEntryAfterWrite(s, e, k);
    }
  }

  ghost predicate StoresIndex<K(!new), V(!new), I(!new)>(s: State<K, V, I>, e: Event<K, V, I>, i: I, to: Option<K>)
    requires Enabled(s, e)
  {
    e.Insert? && e.ttl.Some? && ReaderOf(s, e.r).seen.AnswerSeen?
    && ReaderOf(s, e.r).seen.index == i && to == KeyOf(ReaderOf(s, e.r).seen.answer)
  }

  lemma IndexEntryAfterInsert<K(!new), V(!new), I(!new)>(s: State<K, V, I>, capacity: nat, r: nat, ttl: Option<nat>,
      i: I)
    requires 0 < capacity && WellFormed(s.indexes, capacity) && ReaderOf(s, r).Inserting?
    requires i in AfterInsert(s, capacity, r, ttl).indexes.entries
    ensures var to, seen := AfterInsert(s, capacity, r, ttl).indexes.entries[i].value, ReaderOf(s, r).seen;
      || (ttl.Some? && seen.AnswerSeen? && seen.index == i && to == KeyOf(seen.answer))
      || (i in s.indexes.entries && to == s.indexes.entries[i].value)
  {
    if ttl.Some? && ReaderOf(s, r).seen.AnswerSeen? {
      var seen := ReaderOf(s, r).seen;
      InsertedEntry(s.indexes, capacity, seen.index, Entry(KeyOf(seen.answer), s.now + ttl.value), i);
    }
  }

  lemma IndexEntryAfterRead<K(!new), V(!new), I(!new)>(s: State<K, V, I>, capacity: nat, e: Event<K, V, I>, i: I)
    requires 0 < capacity && WellFormed(s.indexes, capacity) && Enabled(s, e) && ByReader(e)
    requires i in AfterRead(s, capacity, e).indexes.entries
    ensures var to := AfterRead(s, capacity, e).indexes.entries[i].value;
      StoresIndex(s, e, i, to) || (i in s.indexes.entries && to == s.indexes.entries[i].value)
  {
    if e.Insert? {
      IndexEntryAfterInsert(s, capacity, e.r, e.ttl, i);
    }
  }

  lemma IndexEntryAfterWrite<K(!new), V(!new), I(!new)>(s: State<K, V, I>, e: Event<K, V, I>, i: I)
    requires Enabled(s, e) && ByWriter(e)
    requires i in AfterWrite(s, e).indexes.entries
    ensures i in s.indexes.entries && AfterWrite(s, e).indexes.entries[i] == s.indexes.entries[i]
    ensures !Unmaps(s, e, i, s.indexes.entries[i].value)
  {
    if e.Sweep? {
      assert i !in PointingInto(s.indexes, s.writers[e.w].primaries);
    }
  }

  lemma IndexEntryAfter<K(!new), V(!new), I(!new)>(s: State<K, V, I>, capacity: nat, e: Event<K, V, I>, i: I)
    requires 0 < capacity && WellFormed(s.indexes, capacity) && Enabled(s, e)
    requires i in Next(s, capacity, e).indexes.entries
    ensures var to := Next(s, capacity, e).indexes.entries[i].value;
      || StoresIndex(s, e, i, to)
      || (i in s.indexes.entries && to == s.indexes.entries[i].value && !Unmaps(s, e, i, to))
  {
    if ByReader(e) {
      IndexEntryAfterRead(s, capacity, e, i);
    } else if ByWriter(e) {
      IndexEntryAfterWrite(s, e, i);
    }
  }

  lemma RowKept<K(!new), V(!new), I(!new)>(s: State<K, V, I>, capacity: nat, e: Event<K, V, I>, k: K)
    requires 0 < capacity && Inv(s, capacity) && Enabled(s, e)
    ensures RowOk(Next(s, capacity, e), k)
  {
    var s' := Next(s, capacity, e);
    if k in s'.cache.entries {
      var row := s'.cache.entries[k].value;
      CacheEntryAfter(s, capacity, e, k);
      if StoresRow(s, e, k, row) {
        assert ReaderOk(s, e.r);
        UnpaidIsOwed(s, k, row);
      } else {
        assert RowOk(s, k);
      }
      RowStaysOk(s, capacity, e, s', k, row);
    }
  }

  lemma UnpaidIsOwed<K, V, I>(s: State<K, V, I>, k: K, row: Option<V>)
    requires RowFresh(s, k, row)
    ensures row == Row(s, k) || RowExcused(s, k)
  {
    if w :| UnpaidRow(s, w, k) {
      assert OwesRow(s, w, k);
    }
  }

  lemma UnpaidIndexIsOwed<K, V, I>(s: State<K, V, I>, i: I, to: Option<K>)
    requires IndexFresh(s, i, to)
    ensures to == Mapped(s, i) || IndexExcused(s, i, to)
  {
    if w :| UnpaidIndex(s, w, i, to) {
      assert OwesIndex(s, w, i, to);
    }
  }

  lemma IndexKept<K(!new), V(!new), I(!new)>(s: State<K, V, I>, capacity: nat, e: Event<K, V, I>, i: I)
    requires 0 < capacity && Inv(s, capacity) && Enabled(s, e)
    ensures IndexOk(Next(s, capacity, e), i)
  {
    var s' := Next(s, capacity, e);
    if i in s'.indexes.entries {
      var to := s'.indexes.entries[i].value;
      IndexEntryAfter(s, capacity, e, i);
      if StoresIndex(s, e, i, to) {
        assert ReaderOk(s, e.r);
        UnpaidIndexIsOwed(s, i, to);
      } else {
        assert IndexOk(s, i);
      }
      IndexStaysOk(s, capacity, e, s', i, to);
    }
  }
}
