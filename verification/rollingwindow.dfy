/** `RollingWindow` itself: count, sum, minimum and maximum of finite values, taken as reals. */
module RollingWindows {
  import opened Wrappers
  import opened Sequences
  import opened Windows

  datatype Bucket = Bucket(count: nat, sum: real, minimum: Option<real>, maximum: Option<real>)

  const NOTHING := Bucket(0, 0.0, None, None)

  function Least(a: Option<real>, b: Option<real>): Option<real> {
    if a.None? then b else if b.None? then a else Some(if b.value < a.value then b.value else a.value)
  }

  function Greatest(a: Option<real>, b: Option<real>): Option<real> {
    if a.None? then b else if b.None? then a else Some(if b.value > a.value then b.value else a.value)
  }

  function With(b: Bucket, value: real): Bucket {
    Bucket(b.count + 1, b.sum + value, Least(b.minimum, Some(value)), Greatest(b.maximum, Some(value)))
  }

  function Merge(a: Bucket, b: Bucket): Bucket {
    Bucket(a.count + b.count, a.sum + b.sum, Least(a.minimum, b.minimum), Greatest(a.maximum, b.maximum))
  }

  function Summary(log: seq<Observation<real>>): Bucket {
    if log == [] then NOTHING else With(Summary(log[..|log| - 1]), log[|log| - 1].value)
  }

  lemma {:induction false} SummaryConcat(a: seq<Observation<real>>, b: seq<Observation<real>>)
    ensures Summary(a + b) == Merge(Summary(a), Summary(b))
  {
    if b == [] {
      assert a + b == a;
    } else {
      assert (a + b)[..|a + b| - 1] == a + b[..|b| - 1];
      SummaryConcat(a, b[..|b| - 1]);
    }
  }

  function Total(log: seq<Observation<real>>): real {
    if log == [] then 0.0 else log[0].value + Total(log[1..])
  }

  lemma {:induction false} TotalAppend(log: seq<Observation<real>>, x: Observation<real>)
    ensures Total(log + [x]) == Total(log) + x.value
  {
    if log == [] {
      assert log + [x] == [x];
    } else {
      assert (log + [x])[1..] == log[1..] + [x];
      TotalAppend(log[1..], x);
    }
  }

  ghost predicate Bounds(log: seq<Observation<real>>, low: Option<real>, high: Option<real>) {
    if log == [] then low.None? && high.None?
    else
      && low.Some? && high.Some?
      && (forall x :: x in log ==> low.value <= x.value <= high.value)
      && (exists x :: x in log && x.value == low.value)
      && (exists x :: x in log && x.value == high.value)
  }

  lemma {:induction false} SummarySize(log: seq<Observation<real>>)
    ensures Summary(log).count == |log| && Summary(log).sum == Total(log)
  {
    if log != [] {
      var front, x := log[..|log| - 1], log[|log| - 1];
      assert log == front + [x];
      SummarySize(front);
      TotalAppend(front, x);
    }
  }

  /** What a summary says: the size, the total, and attained bounds of the values. */
  lemma {:induction false} SummaryMeaning(log: seq<Observation<real>>)
    ensures Summary(log).count == |log| && Summary(log).sum == Total(log)
    ensures Bounds(log, Summary(log).minimum, Summary(log).maximum)
  {
    SummarySize(log);
    if log != [] {
      var front, x := log[..|log| - 1], log[|log| - 1];
      assert log == front + [x];
      SummaryMeaning(front);
      BoundsAppend(front, x, Summary(front).minimum, Summary(front).maximum);
    }
  }

  lemma BoundsAppend(log: seq<Observation<real>>, x: Observation<real>, low: Option<real>, high: Option<real>)
    requires Bounds(log, low, high)
    ensures Bounds(log + [x], Least(low, Some(x.value)), Greatest(high, Some(x.value)))
  {
    var longer := log + [x];
    assert x in longer;
    assert forall y :: y in longer ==> y in log || y == x;
    assert forall y :: y in log ==> y in longer;
  }

  /** The buckets merged from oldest to newest, as `snapshot` folds them. */
  function Merged(buckets: seq<Bucket>): Bucket {
    if buckets == [] then NOTHING else Merge(Merged(buckets[..|buckets| - 1]), buckets[|buckets| - 1])
  }

  lemma {:induction false} MergedSummaries(slots: seq<seq<Observation<real>>>)
    ensures Merged(Map(Summary, slots)) == Summary(Flatten(slots))
  {
    if slots != [] {
      var front, last := slots[..|slots| - 1], slots[|slots| - 1];
      assert slots == front + [last];
      MapSize(Summary, front);
      assert Map(Summary, slots)[..|slots| - 1] == Map(Summary, front);
      MergedSummaries(front);
      FlattenAppend(front, last);
      SummaryConcat(Flatten(front), last);
    }
  }

  lemma FreshWindow(n: nat, width: nat, now: nat)
    requires 0 < n
    ensures Map(Summary, [[]]) == [NOTHING]
    ensures Accounts<real>(n, width, Window(now, [[]]), [], [])
  {
    var s: Window<seq<Observation<real>>> := Window(now, [[]]);
    assert s.buckets[0] == [] && Flatten(s.buckets) == [];
    assert Summary(s.buckets[0]) == NOTHING;
  }

  lemma RecordSummary(slots: seq<seq<Observation<real>>>, x: Observation<real>)
    requires slots != []
    ensures var last, buckets := |slots| - 1, Map(Summary, slots);
      && |buckets| == |slots|
      && buckets[last := With(buckets[last], x.value)] == Map(Summary, slots[last := slots[last] + [x]])
  {
    var last := |slots| - 1;
    var longer := slots[last] + [x];
    assert longer[..|longer| - 1] == slots[last];
    MapSize(Summary, slots);
    MapSize(Summary, slots[..last]);
    assert slots[last := longer][..last] == slots[..last];
  }

  lemma MergedIsRecent(n: nat, width: nat, s: Window<seq<Observation<real>>>, log: seq<Observation<real>>,
      dropped: seq<Observation<real>>)
    requires 0 < width && Accounts(n, width, s, log, dropped)
    ensures Merged(Map(Summary, s.buckets)) == Summary(Since(log, s.started - (n - 1) * width))
  {
    MergedSummaries(s.buckets);
    SlotsAreTheRecent(n, width, s, log, dropped);
  }

  class RollingWindow {
    const bucketCount: nat
    const bucketWidth: nat
    var currentStarted: nat
    var buckets: seq<Bucket>
    /** Everything recorded since the window was made or reset, and how the buckets split it. */
    ghost var log: seq<Observation<real>>
    ghost var slots: seq<seq<Observation<real>>>
    ghost var dropped: seq<Observation<real>>

    ghost predicate Valid()
      reads this
    {
      && 0 < bucketCount && 0 < bucketWidth
      && buckets == Map(Summary, slots)
      && Accounts(bucketCount, bucketWidth, Window(currentStarted, slots), log, dropped)
    }

    constructor (bucketCount: nat, bucketWidth: nat, now: nat)
      requires 0 < bucketCount && 0 < bucketWidth
      ensures Valid() && log == [] && currentStarted == now
      ensures this.bucketCount == bucketCount && this.bucketWidth == bucketWidth
    {
      this.bucketCount, this.bucketWidth := bucketCount, bucketWidth;
      currentStarted, buckets := now, [NOTHING];
      log, slots, dropped := [], [[]], [];
      FreshWindow(bucketCount, bucketWidth, now);
    }

    /** Advances the buckets to `now`; an instant before the newest bucket changes nothing. */
    method Rotate(now: nat)
      requires 0 < bucketCount && 0 < bucketWidth
      modifies `buckets, `currentStarted
      ensures Window(currentStarted, buckets) ==
        Rotated(bucketCount, bucketWidth, NOTHING, Window(old(currentStarted), old(buckets)), now)
    {
      var elapsed := if currentStarted <= now then now - currentStarted else 0;
      var elapsedBuckets := elapsed / bucketWidth;
      if elapsedBuckets == 0 {
        return;
      }
      if elapsedBuckets >= bucketCount {
        buckets := [NOTHING];
        currentStarted := now;
        return;
      }
      PushMany(elapsedBuckets);
      currentStarted := currentStarted + bucketWidth * elapsedBuckets;
    }

    method PushMany(times: nat)
      modifies `buckets
      ensures buckets == Shifted(bucketCount, NOTHING, old(buckets), times)
    {
      for n := 0 to times
        invariant Shifted(bucketCount, NOTHING, buckets, times - n)
          == Shifted(bucketCount, NOTHING, old(buckets), times)
      {
        buckets := buckets + [NOTHING];
        if |buckets| > bucketCount {
          buckets := buckets[1..];
        }
      }
    }

    /** The same step for what the buckets stand for. The clock never runs behind the newest bucket. */
    method Advance(now: nat)
      requires Valid() && currentStarted <= now
      modifies this
      ensures Valid() && log == old(log)
      ensures now - bucketWidth < currentStarted <= now
    {
      ghost var was := Window(currentStarted, slots);
      ghost var kept := RotateAccounts(bucketCount, bucketWidth, was, log, dropped, now);
      RotatedMap(Summary, bucketCount, bucketWidth, [], was, now);
      Rotate(now);
      slots, dropped := Rotated(bucketCount, bucketWidth, [], was, now).buckets, kept;
    }

    method Record(value: real, now: nat)
      requires Valid() && currentStarted <= now
      modifies this
      ensures Valid() && log == old(log) + [Observation(now, value)]
    {
      Advance(now);
      ghost var x := Observation(now, value);
      RecordAccounts(bucketCount, bucketWidth, Window(currentStarted, slots), log, dropped, x);
      var last := |buckets| - 1;
      RecordSummary(slots, x);
      buckets := buckets[last := With(buckets[last], value)];
      slots := Recorded(Window(currentStarted, slots), x).buckets;
      log := log + [x];
    }

    /** The summary of exactly the observations in the window, and of nothing else. */
    method Snapshot(now: nat) returns (snapshot: Bucket)
      requires Valid() && currentStarted <= now
      modifies this
      ensures Valid() && log == old(log)
      ensures now - bucketWidth < currentStarted <= now
      ensures snapshot == Summary(Since(log, currentStarted - (bucketCount - 1) * bucketWidth))
    {
      Advance(now);
      MergedIsRecent(bucketCount, bucketWidth, Window(currentStarted, slots), log, dropped);
      snapshot := Fold();
    }

    /** Merges the buckets from oldest to newest. */
    method Fold() returns (merged: Bucket)
      ensures merged == Merged(buckets)
    {
      merged := NOTHING;
      for n := 0 to |buckets|
        invariant merged == Merged(buckets[..n])
      {
        assert buckets[..n + 1][..n] == buckets[..n];
        merged := Merge(merged, buckets[n]);
      }
      assert buckets[..|buckets|] == buckets;
    }

    method Reset(now: nat)
      requires Valid() && currentStarted <= now
      modifies this
      ensures Valid() && log == [] && currentStarted == now
    {
      currentStarted := now;
      buckets := [NOTHING];
      log, slots, dropped := [], [[]], [];
      FreshWindow(bucketCount, bucketWidth, now);
    }
  }
}
