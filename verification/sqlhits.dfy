/**
 * Hits of `find_by_index`, which reads the index cache and then the row cache: when the value it
 * returns is right, and when it is torn.
 */
module SqlHits {
  import opened Wrappers
  import opened SqlCoherence
  import opened SqlGuarantees

  /** What `find_by_index` promises to return: the row that the secondary key leads to. */
  function RightValue<K, V, I>(s: State<K, V, I>, i: I): Option<V> {
    if Mapped(s, i).Some? then Row(s, Mapped(s, i).value) else None
  }

  /** None of these commits changes where `i` leads. */
  ghost predicate KeepsMapping<K, V, I>(
    start: State<K, V, I>, capacity: nat, before: seq<Event<K, V, I>>, between: seq<Event<K, V, I>>, i: I)
  {
    between == [] ||
    (var rest := between[..|between| - 1];
     && KeepsMapping(start, capacity, before, rest, i)
     && (between[|between| - 1].Commit? ==>
           Mapped(After(start, capacity, before + between), i) == Mapped(After(start, capacity, before + rest), i)))
  }

  lemma {:induction false} SameMapping<K(!new), V(!new), I(!new)>(
    start: State<K, V, I>, capacity: nat, before: seq<Event<K, V, I>>, between: seq<Event<K, V, I>>, i: I)
    requires KeepsMapping(start, capacity, before, between, i)
    ensures Mapped(After(start, capacity, before + between), i) == Mapped(After(start, capacity, before), i)
  {
    if between == [] {
      assert before + between == before;
    } else {
      var rest, last := between[..|between| - 1], between[|between| - 1];
      SameMapping(start, capacity, before, rest, i);
      if !last.Commit? {
        assert (before + between)[..|before + between| - 1] == before + rest;
        DatabaseKept(After(start, capacity, before + rest), capacity, last);
      }
    }
  }

  /** A hit: the index read in one state leads to `k`, and the row cache, read in another, has `k`. */
  ghost predicate Hits<K, V, I>(s: State<K, V, I>, s': State<K, V, I>, i: I, k: K) {
    && i in s.indexes.entries && s.indexes.entries[i].value == Some(k) && !IndexExcused(s, i, Some(k))
    && k in s'.cache.entries && !RowExcused(s', k)
  }

  lemma HitIsTheRow<K(!new), V(!new), I(!new)>(start: State<K, V, I>, capacity: nat,
    before: seq<Event<K, V, I>>, after: seq<Event<K, V, I>>, i: I, k: K)
    requires IsRun(start, capacity, before) && IsRun(start, capacity, after)
    requires Hits(After(start, capacity, before), After(start, capacity, after), i, k)
    ensures Mapped(After(start, capacity, before), i) == Some(k)
    ensures var s' := After(start, capacity, after); s'.cache.entries[k].value == Row(s', k)
  {
    CachedMappingsAreCurrent(start, capacity, before, i);
    CachedRowsAreCurrent(start, capacity, after, k);
  }

  /**
   * `find_by_index` reads the index cache and then the row cache. If nobody answers for what it
   * reads and no commit in between changes where the secondary key leads, the value it returns is
   * the right one, whatever else was committed in between.
   */
  lemma TwoStepHitIsCurrent<K(!new), V(!new), I(!new)>(start: State<K, V, I>, capacity: nat,
    before: seq<Event<K, V, I>>, between: seq<Event<K, V, I>>, i: I, k: K)
    requires IsRun(start, capacity, before) && IsRun(start, capacity, before + between)
    requires Hits(After(start, capacity, before), After(start, capacity, before + between), i, k)
    requires KeepsMapping(start, capacity, before, between, i)
    ensures var s' := After(start, capacity, before + between);
      s'.cache.entries[k].value == RightValue(s', i) && RightValue(s', i).Some?
  {
    HitIsTheRow(start, capacity, before, before + between, i, k);
    SameMapping(start, capacity, before, between, i);
  }

  /**
   * After a commit in between that makes the secondary key lead to `to`, the last one to change it,
   * the hit is wrong if and only if the row left at `k` differs from the row that `to` names.
   */
  lemma RemappedHitExactly<K(!new), V(!new), I(!new)>(start: State<K, V, I>, capacity: nat,
    before: seq<Event<K, V, I>>, between: seq<Event<K, V, I>>, rest: seq<Event<K, V, I>>, i: I, k: K, to: Option<K>)
    requires IsRun(start, capacity, before) && IsRun(start, capacity, before + between + rest)
    requires Hits(After(start, capacity, before), After(start, capacity, before + between + rest), i, k)
    requires between != [] && between[|between| - 1].Commit?
    requires to == Mapped(After(start, capacity, before + between), i)
    requires KeepsMapping(start, capacity, before + between, rest, i)
    ensures var s' := After(start, capacity, before + between + rest);
      && s'.cache.entries[k].value == Row(s', k)
      && (s'.cache.entries[k].value != RightValue(s', i)
          <==> Row(s', k) != if to.Some? then Row(s', to.value) else None)
  {
    HitIsTheRow(start, capacity, before, before + between + rest, i, k);
    SameMapping(start, capacity, before + between, rest, i);
  }
}
