/** What the coherence protocol guarantees about the caches, and where the guarantee ends. */
module SqlGuarantees {
  import opened Wrappers
  import opened SqlCoherence
  import opened SqlInvariant

  /** A run of the protocol from a database with empty caches. */
  ghost predicate IsRun<K(!new), V(!new), I(!new)>(
    start: State<K, V, I>, capacity: nat, events: seq<Event<K, V, I>>)
  {
    0 < capacity && start == Start(start.rows, start.mapping) && Legal(start, capacity, events)
  }

  lemma RunOneLess<K(!new), V(!new), I(!new)>(
    start: State<K, V, I>, capacity: nat, events: seq<Event<K, V, I>>, e: Event<K, V, I>)
    requires IsRun(start, capacity, events + [e])
    ensures IsRun(start, capacity, events) && Enabled(After(start, capacity, events), e)
    ensures After(start, capacity, events + [e]) == Next(After(start, capacity, events), capacity, e)
  {
    assert (events + [e])[..|events|] == events;
  }

  /**
   * In every interleaving a cached row is the database's row, unless a writer answers for it: a
   * mutation that names its key has committed and no bump of the generation has named the key
   * since, or an invalidation is about to remove it.
   */
  lemma CachedRowsAreCurrent<K(!new), V(!new), I(!new)>(
    start: State<K, V, I>, capacity: nat, events: seq<Event<K, V, I>>, k: K)
    requires IsRun(start, capacity, events) && k in After(start, capacity, events).cache.entries
    ensures var s := After(start, capacity, events);
      s.cache.entries[k].value == Row(s, k) || exists w :: OwesRow(s, w, k)
  {
    EveryInterleavingKeepsInv(start, capacity, events);
    assert RowOk(After(start, capacity, events), k);
  }

  /** The same for secondary keys, whether the index remembers a primary key or an absence. */
  lemma CachedMappingsAreCurrent<K(!new), V(!new), I(!new)>(
    start: State<K, V, I>, capacity: nat, events: seq<Event<K, V, I>>, i: I)
    requires IsRun(start, capacity, events) && i in After(start, capacity, events).indexes.entries
    ensures var s := After(start, capacity, events); var to := s.indexes.entries[i].value;
      to == Mapped(s, i) || exists w :: OwesIndex(s, w, i, to)
  {
    EveryInterleavingKeepsInv(start, capacity, events);
    assert IndexOk(After(start, capacity, events), i);
  }

  /** A load whose saved generation is still current holds a value only an unannounced mutation can outdate. */
  lemma SlowReadersAreCurrentOrOutdated<K(!new), V(!new), I(!new)>(
    start: State<K, V, I>, capacity: nat, events: seq<Event<K, V, I>>, r: nat)
    requires IsRun(start, capacity, events) && ReaderOf(After(start, capacity, events), r).Queried?
    ensures var s := After(start, capacity, events);
      && ReaderOf(s, r).generation <= s.generation
      && (ReaderOf(s, r).generation == s.generation ==> SeenFresh(s, ReaderOf(s, r).seen))
      && (ReaderOf(s, r).generation < s.generation ==>
            var s' := Next(s, capacity, TakeGate(r));
            s'.cache == s.cache && s'.indexes == s.indexes && ReaderOf(s', r).Finished?)
  {
    EveryInterleavingKeepsInv(start, capacity, events);
    assert ReaderOk(After(start, capacity, events), r);
  }

  /** No writer answers for anything: every committed change has been announced and invalidated. */
  ghost predicate Quiet<K(!new), V, I(!new)>(s: State<K, V, I>) {
    (forall w, k :: !OwesRow(s, w, k)) && (forall w, i, to :: !OwesIndex(s, w, i, to))
  }

  /** Both caches agree with the database, and an index hit leads to the answer itself. */
  ghost predicate Exact<K(!new), V(!new), I(!new)>(s: State<K, V, I>) {
    && (forall k :: k in s.cache.entries ==> s.cache.entries[k].value == Row(s, k))
    && (forall i :: i in s.indexes.entries ==> s.indexes.entries[i].value == Mapped(s, i))
    && (forall i :: i in s.indexes.entries && s.indexes.entries[i].value.None? ==> Answer(s, i) == None)
    && (forall i, k :: i in s.indexes.entries && s.indexes.entries[i].value == Some(k) && k in s.cache.entries ==>
          s.cache.entries[k].value.Some? && Answer(s, i) == Some((k, s.cache.entries[k].value.value)))
  }

  lemma QuietIsExact<K(!new), V(!new), I(!new)>(s: State<K, V, I>, capacity: nat)
    requires Inv(s, capacity) && Quiet(s)
    ensures Exact(s)
  {
    forall k | k in s.cache.entries ensures s.cache.entries[k].value == Row(s, k) {
      assert RowOk(s, k);
    }
    forall i | i in s.indexes.entries ensures s.indexes.entries[i].value == Mapped(s, i) {
      assert IndexOk(s, i);
    }
  }

  /** In every quiet state of every interleaving both caches are exact. */
  lemma QuietCacheIsExact<K(!new), V(!new), I(!new)>(
    start: State<K, V, I>, capacity: nat, events: seq<Event<K, V, I>>)
    requires IsRun(start, capacity, events) && Quiet(After(start, capacity, events))
    ensures Exact(After(start, capacity, events))
  {
    EveryInterleavingKeepsInv(start, capacity, events);
    QuietIsExact(After(start, capacity, events), capacity);
  }

  // ---------------------------------------------------------------- an invalidation settles what it names

  /** A debt was there before the step, unless the step is a commit of the writer. */
  lemma UnpaidRowBefore<K(!new), V(!new), I(!new)>(
    s: State<K, V, I>, capacity: nat, e: Event<K, V, I>, s': State<K, V, I>, w: nat, k: K)
    requires Enabled(s, e) && s' == Next(s, capacity, e) && UnpaidRow(s', w, k) && !(e.Commit? && e.w == w)
    ensures UnpaidRow(s, w, k)
  {
    WriterBefore(s, capacity, e, s', w);
  }

  lemma UnpaidIndexBefore<K(!new), V(!new), I(!new)>(
    s: State<K, V, I>, capacity: nat, e: Event<K, V, I>, s': State<K, V, I>, w: nat, i: I, to: Option<K>)
    requires Enabled(s, e) && s' == Next(s, capacity, e) && UnpaidIndex(s', w, i, to) && !(e.Commit? && e.w == w)
    ensures UnpaidIndex(s, w, i, to)
  {
    WriterBefore(s, capacity, e, s', w);
  }

  lemma WriterBefore<K(!new), V(!new), I(!new)>(
    s: State<K, V, I>, capacity: nat, e: Event<K, V, I>, s': State<K, V, I>, w: nat)
    requires Enabled(s, e) && s' == Next(s, capacity, e) && w in s'.writers && Unannounced(s'.writers[w].stage)
    requires !(e.Commit? && e.w == w)
    ensures w in s.writers && Unannounced(s.writers[w].stage)
    ensures s.writers[w].stage.since == s'.writers[w].stage.since
    ensures s.writers[w].primaries == s'.writers[w].primaries && s.writers[w].keys == s'.writers[w].keys
    ensures s.bumps <= s'.bumps
  {
    DatabaseKept(s, capacity, e);
    if ByReader(e) {
      ReadKeepsDatabase(s, capacity, e, s');
    } else if ByWriter(e) && e.w != w && w in s.writers {
      WriteKeepsOtherWriter(s, e, w, s');
    }
  }

  /** A commit cannot lie in the future. */
  ghost predicate SinceIsPast<K, V, I>(s: State<K, V, I>, w: nat) {
    w in s.writers && Unannounced(s.writers[w].stage) ==> s.writers[w].stage.since <= |s.bumps|
  }

  lemma {:induction false} EveryCommitIsPast<K(!new), V(!new), I(!new)>(
    start: State<K, V, I>, capacity: nat, events: seq<Event<K, V, I>>, w: nat)
    requires IsRun(start, capacity, events)
    ensures SinceIsPast(After(start, capacity, events), w)
  {
    if events != [] {
      var before, e := events[..|events| - 1], events[|events| - 1];
      var s, s' := After(start, capacity, before), After(start, capacity, events);
      EveryCommitIsPast(start, capacity, before, w);
      DatabaseKept(s, capacity, e);
      if w in s'.writers && Unannounced(s'.writers[w].stage) && !(e.Commit? && e.w == w) {
        WriterBefore(s, capacity, e, s', w);
      }
    }
  }

  /** `v` bumps the generation after `before`; then come `after`. */
  function Around<K, V, I>(before: seq<Event<K, V, I>>, v: nat, after: seq<Event<K, V, I>>): seq<Event<K, V, I>> {
    before + [Bump(v)] + after
  }

  lemma AroundOneLess<K, V, I>(before: seq<Event<K, V, I>>, v: nat, after: seq<Event<K, V, I>>)
    requires after != []
    ensures var events := Around(before, v, after);
      && events[..|events| - 1] == Around(before, v, after[..|after| - 1])
      && events[|events| - 1] == after[|after| - 1]
  {
  }

  lemma BumpComesNext<K(!new), V(!new), I(!new)>(
    start: State<K, V, I>, capacity: nat, before: seq<Event<K, V, I>>, v: nat)
    requires IsRun(start, capacity, Around(before, v, []))
    ensures var s, s' := After(start, capacity, before), After(start, capacity, Around(before, v, []));
      && IsRun(start, capacity, before) && Enabled(s, Bump(v)) && s' == Next(s, capacity, Bump(v))
      && v in s.writers && v in s'.writers && s'.writers[v].primaries == s.writers[v].primaries
      && s'.bumps == s.bumps + [Bumped(s.writers[v].primaries, s.writers[v].keys)]
  {
    assert Around(before, v, []) == before + [Bump(v)];
    RunOneLess(start, capacity, before, Bump(v));
  }

  lemma BumpPaysRow<K(!new), V(!new), I(!new)>(
    start: State<K, V, I>, capacity: nat, before: seq<Event<K, V, I>>, v: nat, w: nat, k: K)
    requires IsRun(start, capacity, Around(before, v, [])) && v in After(start, capacity, before).writers
    requires k in After(start, capacity, before).writers[v].primaries
    ensures !UnpaidRow(After(start, capacity, Around(before, v, [])), w, k)
  {
    var s, s' := After(start, capacity, before), After(start, capacity, Around(before, v, []));
    BumpComesNext(start, capacity, before, v);
    EveryCommitIsPast(start, capacity, before, w);
    assert k in s'.bumps[|s.bumps|].primaries;
    if w in s'.writers && Unannounced(s'.writers[w].stage) {
      WriterBefore(s, capacity, Bump(v), s', w);
    }
  }

  lemma BumpPaysIndex<K(!new), V(!new), I(!new)>(
    start: State<K, V, I>, capacity: nat, before: seq<Event<K, V, I>>, v: nat, w: nat, i: I, to: Option<K>)
    requires IsRun(start, capacity, Around(before, v, [])) && v in After(start, capacity, before).writers
    requires var writer := After(start, capacity, before).writers[v]; Covers(writer.primaries, writer.keys, i, to)
    ensures !UnpaidIndex(After(start, capacity, Around(before, v, [])), w, i, to)
  {
    var s, s' := After(start, capacity, before), After(start, capacity, Around(before, v, []));
    BumpComesNext(start, capacity, before, v);
    EveryCommitIsPast(start, capacity, before, w);
    assert Covers(s'.bumps[|s.bumps|].primaries, s'.bumps[|s.bumps|].keys, i, to);
    if w in s'.writers && Unannounced(s'.writers[w].stage) {
      WriterBefore(s, capacity, Bump(v), s', w);
    }
  }

  /** What is still unpaid after a bump that named it was committed after that bump. */
  lemma {:induction false} UnpaidRowsAreNewer<K(!new), V(!new), I(!new)>(start: State<K, V, I>, capacity: nat,
    before: seq<Event<K, V, I>>, v: nat, after: seq<Event<K, V, I>>, w: nat, k: K)
    requires IsRun(start, capacity, Around(before, v, after)) && v in After(start, capacity, before).writers
    requires k in After(start, capacity, before).writers[v].primaries
    requires UnpaidRow(After(start, capacity, Around(before, v, after)), w, k)
    ensures exists n :: 0 <= n < |after| && after[n].Commit? && after[n].w == w
    decreases |after|
  {
    var s' := After(start, capacity, Around(before, v, after));
    if after == [] {
      BumpPaysRow(start, capacity, before, v, w, k);
    } else {
      var rest, e := after[..|after| - 1], after[|after| - 1];
      AroundOneLess(before, v, after);
      if e.Commit? && e.w == w {
        assert after[|after| - 1].Commit?;
      } else {
        UnpaidRowBefore(After(start, capacity, Around(before, v, rest)), capacity, e, s', w, k);
        UnpaidRowsAreNewer(start, capacity, before, v, rest, w, k);
        var n :| 0 <= n < |rest| && rest[n].Commit? && rest[n].w == w;
        assert after[n] == rest[n];
      }
    }
  }

  lemma {:induction false} UnpaidIndexesAreNewer<K(!new), V(!new), I(!new)>(start: State<K, V, I>, capacity: nat,
    before: seq<Event<K, V, I>>, v: nat, after: seq<Event<K, V, I>>, w: nat, i: I, to: Option<K>)
    requires IsRun(start, capacity, Around(before, v, after)) && v in After(start, capacity, before).writers
    requires var writer := After(start, capacity, before).writers[v]; Covers(writer.primaries, writer.keys, i, to)
    requires UnpaidIndex(After(start, capacity, Around(before, v, after)), w, i, to)
    ensures exists n :: 0 <= n < |after| && after[n].Commit? && after[n].w == w
    decreases |after|
  {
    var s' := After(start, capacity, Around(before, v, after));
    if after == [] {
      BumpPaysIndex(start, capacity, before, v, w, i, to);
    } else {
      var rest, e := after[..|after| - 1], after[|after| - 1];
      AroundOneLess(before, v, after);
      if e.Commit? && e.w == w {
        assert after[|after| - 1].Commit?;
      } else {
        UnpaidIndexBefore(After(start, capacity, Around(before, v, rest)), capacity, e, s', w, i, to);
        UnpaidIndexesAreNewer(start, capacity, before, v, rest, w, i, to);
        var n :| 0 <= n < |rest| && rest[n].Commit? && rest[n].w == w;
        assert after[n] == rest[n];
      }
    }
  }

  /** Some commit among the events is by a writer that names `k`; `s` is a state after all of them. */
  ghost predicate CommitsRow<K, V, I>(s: State<K, V, I>, events: seq<Event<K, V, I>>, k: K) {
    exists n :: 0 <= n < |events| && events[n].Commit?
      && events[n].w in s.writers && k in s.writers[events[n].w].primaries
  }

  ghost predicate CommitsIndex<K, V, I>(s: State<K, V, I>, events: seq<Event<K, V, I>>, i: I, to: Option<K>) {
    exists n :: 0 <= n < |events| && events[n].Commit?
      && events[n].w in s.writers && Covers(s.writers[events[n].w].primaries, s.writers[events[n].w].keys, i, to)
  }

  /**
   * An invalidation settles the rows it names, whatever was abandoned before: from its bump on, a
   * cached row of `k` is the database's row whenever no mutation naming `k` has committed since the
   * bump and nobody is about to remove `k`.
   */
  lemma InvalidationSettlesRow<K(!new), V(!new), I(!new)>(start: State<K, V, I>, capacity: nat,
    before: seq<Event<K, V, I>>, v: nat, after: seq<Event<K, V, I>>, k: K)
    requires IsRun(start, capacity, Around(before, v, after)) && v in After(start, capacity, before).writers
    requires k in After(start, capacity, before).writers[v].primaries
    requires var s := After(start, capacity, Around(before, v, after));
      && !CommitsRow(s, after, k) && (forall w :: !PurgesRow(s, w, k)) && k in s.cache.entries
    ensures var s := After(start, capacity, Around(before, v, after)); s.cache.entries[k].value == Row(s, k)
  {
    var s := After(start, capacity, Around(before, v, after));
    CachedRowsAreCurrent(start, capacity, Around(before, v, after), k);
    forall w ensures !OwesRow(s, w, k) {
      assert !PurgesRow(s, w, k);
      if UnpaidRow(s, w, k) {
        UnpaidRowsAreNewer(start, capacity, before, v, after, w, k);
      }
    }
  }

  /** And the mappings it names, by the secondary key or by the primary key they lead to. */
  lemma InvalidationSettlesIndex<K(!new), V(!new), I(!new)>(start: State<K, V, I>, capacity: nat,
    before: seq<Event<K, V, I>>, v: nat, after: seq<Event<K, V, I>>, i: I, to: Option<K>)
    requires IsRun(start, capacity, Around(before, v, after)) && v in After(start, capacity, before).writers
    requires var writer := After(start, capacity, before).writers[v]; Covers(writer.primaries, writer.keys, i, to)
    requires var s := After(start, capacity, Around(before, v, after));
      && !CommitsIndex(s, after, i, to) && (forall w :: !PurgesIndex(s, w, i, to))
      && i in s.indexes.entries && s.indexes.entries[i].value == to
    ensures var s := After(start, capacity, Around(before, v, after)); to == Mapped(s, i)
  {
    var s := After(start, capacity, Around(before, v, after));
    CachedMappingsAreCurrent(start, capacity, Around(before, v, after), i);
    forall w ensures !OwesIndex(s, w, i, to) {
      assert !PurgesIndex(s, w, i, to);
      if UnpaidIndex(s, w, i, to) {
        UnpaidIndexesAreNewer(start, capacity, before, v, after, w, i, to);
      }
    }
  }

  // ---------------------------------------------------------------- mutations dropped after their commit

  /** When every call has ended, a stale row is the trace of a dropped mutation that nobody has made up for. */
  lemma StaleRowsComeFromAbandonedMutations<K(!new), V(!new), I(!new)>(
    start: State<K, V, I>, capacity: nat, events: seq<Event<K, V, I>>, k: K)
    requires IsRun(start, capacity, events) && AllEnded(After(start, capacity, events))
    requires var s := After(start, capacity, events); k in s.cache.entries && s.cache.entries[k].value != Row(s, k)
    ensures var s := After(start, capacity, events);
      exists w :: UnpaidRow(s, w, k) && s.writers[w].stage.Abandoned?
  {
    CachedRowsAreCurrent(start, capacity, events, k);
    var w :| OwesRow(After(start, capacity, events), w, k);
    assert UnpaidRow(After(start, capacity, events), w, k);
  }

  lemma StaleMappingsComeFromAbandonedMutations<K(!new), V(!new), I(!new)>(
    start: State<K, V, I>, capacity: nat, events: seq<Event<K, V, I>>, i: I)
    requires IsRun(start, capacity, events) && AllEnded(After(start, capacity, events))
    requires var s := After(start, capacity, events);
      i in s.indexes.entries && s.indexes.entries[i].value != Mapped(s, i)
    ensures var s := After(start, capacity, events);
      exists w :: UnpaidIndex(s, w, i, s.indexes.entries[i].value) && s.writers[w].stage.Abandoned?
  {
    var s := After(start, capacity, events);
    CachedMappingsAreCurrent(start, capacity, events, i);
    var w :| OwesIndex(s, w, i, s.indexes.entries[i].value);
    assert UnpaidIndex(s, w, i, s.indexes.entries[i].value);
  }

  predicate AllEnded<K, V, I>(s: State<K, V, I>) {
    forall w :: w in s.writers ==> s.writers[w].stage.Ended? || s.writers[w].stage.Abandoned?
  }

  /** A commit whose caller is dropped right after it. */
  function CommitAndDrop<K, V, I>(w: nat, rows: map<K, V>, mapping: map<I, K>): seq<Event<K, V, I>> {
    [Commit(w, rows, mapping), CancelMutation(w)]
  }

  lemma DroppedCommit<K(!new), V(!new), I(!new)>(start: State<K, V, I>, capacity: nat,
    before: seq<Event<K, V, I>>, w: nat, rows: map<K, V>, mapping: map<I, K>)
    requires IsRun(start, capacity, before + CommitAndDrop(w, rows, mapping))
    ensures IsRun(start, capacity, before)
    ensures var s, s' := After(start, capacity, before),
      After(start, capacity, before + CommitAndDrop(w, rows, mapping));
      && s'.cache == s.cache && s'.indexes == s.indexes && s'.rows == rows && s'.mapping == mapping
      && w in s'.writers && s'.writers[w].stage.Abandoned?
  {
    var one := before + [Commit(w, rows, mapping)];
    assert before + CommitAndDrop(w, rows, mapping) == one + [CancelMutation(w)];
    RunOneLess(start, capacity, one, CancelMutation(w));
    RunOneLess(start, capacity, before, Commit(w, rows, mapping));
  }

  /**
   * What a dropped mutation does: if nobody answered for the row of `k` before its commit, the
   * cached row is stale when it has been dropped if and only if its commit changed that row.
   */
  lemma DroppedCommitLeavesRowStaleIff<K(!new), V(!new), I(!new)>(start: State<K, V, I>, capacity: nat,
    before: seq<Event<K, V, I>>, w: nat, rows: map<K, V>, mapping: map<I, K>, k: K)
    requires IsRun(start, capacity, before + CommitAndDrop(w, rows, mapping))
    requires var s := After(start, capacity, before); k in s.cache.entries && !RowExcused(s, k)
    ensures var s, s' := After(start, capacity, before),
      After(start, capacity, before + CommitAndDrop(w, rows, mapping));
      && k in s'.cache.entries
      && (s'.cache.entries[k].value != Row(s', k) <==> Row(s', k) != Row(s, k))
  {
    DroppedCommit(start, capacity, before, w, rows, mapping);
    CachedRowsAreCurrent(start, capacity, before, k);
  }

  lemma DroppedCommitLeavesMappingStaleIff<K(!new), V(!new), I(!new)>(start: State<K, V, I>, capacity: nat,
    before: seq<Event<K, V, I>>, w: nat, rows: map<K, V>, mapping: map<I, K>, i: I)
    requires IsRun(start, capacity, before + CommitAndDrop(w, rows, mapping))
    requires var s := After(start, capacity, before);
      i in s.indexes.entries && !IndexExcused(s, i, s.indexes.entries[i].value)
    ensures var s, s' := After(start, capacity, before),
      After(start, capacity, before + CommitAndDrop(w, rows, mapping));
      && i in s'.indexes.entries
      && (s'.indexes.entries[i].value != Mapped(s', i) <==> Mapped(s', i) != Mapped(s, i))
  {
    DroppedCommit(start, capacity, before, w, rows, mapping);
    CachedMappingsAreCurrent(start, capacity, before, i);
  }
}
