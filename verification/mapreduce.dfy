/**
 * The bounded-concurrency map-reduce of mapreduce/src/mapreduce.rs. A job set hands back its jobs in
 * an order nobody controls; a job that panics is one whose function has no result.
 */
module MapReduces {
  import opened Wrappers

  // ---------------------------------------------------------------- the sequential reference

  function Output<V, K, R>(mapFn: V -> Option<seq<(K, R)>>, item: V): seq<(K, R)> {
    if mapFn(item).Some? then mapFn(item).value else []
  }

  /** Everything the map function emits, item by item. */
  function Emitted<V, K, R>(mapFn: V -> Option<seq<(K, R)>>, items: seq<V>): seq<(K, R)> {
    if items == [] then []
    else Emitted(mapFn, items[..|items| - 1]) + Output(mapFn, items[|items| - 1])
  }

  predicate AllMap<V, K, R>(mapFn: V -> Option<seq<(K, R)>>, items: seq<V>) {
    forall i :: 0 <= i < |items| ==> mapFn(items[i]).Some?
  }

  /** The values emitted under a key, in order. */
  function Values<K(==), R>(pairs: seq<(K, R)>, key: K): seq<R> {
    if pairs == [] then []
    else
      var before, last := Values(pairs[..|pairs| - 1], key), pairs[|pairs| - 1];
      if last.0 == key then before + [last.1] else before
  }

  function Keys<K, R>(pairs: seq<(K, R)>): set<K> {
    set i | 0 <= i < |pairs| :: pairs[i].0
  }

  /** One group at a time: an error if any job panics. */
  ghost predicate IsSequentialResult<V, K, R>(
    mapFn: V -> Option<seq<(K, R)>>, reduceFn: (K, seq<R>) -> Option<R>, items: seq<V>, result: Option<map<K, R>>)
  {
    var pairs := Emitted(mapFn, items);
    if AllMap(mapFn, items) && forall k :: k in Keys(pairs) ==> reduceFn(k, Values(pairs, k)).Some? then
      && result.Some? && result.value.Keys == Keys(pairs)
      && forall k :: k in Keys(pairs) ==> Some(result.value[k]) == reduceFn(k, Values(pairs, k))
    else result.None?
  }

  lemma {:induction false} EmittedConcat<V, K, R>(mapFn: V -> Option<seq<(K, R)>>, a: seq<V>, b: seq<V>)
    ensures Emitted(mapFn, a + b) == Emitted(mapFn, a) + Emitted(mapFn, b)
  {
    if b == [] {
      assert a + b == a;
    } else {
      assert (a + b)[..|a + b| - 1] == a + b[..|b| - 1];
      EmittedConcat(mapFn, a, b[..|b| - 1]);
    }
  }

  lemma EmittedOne<V, K, R>(mapFn: V -> Option<seq<(K, R)>>, item: V)
    ensures Emitted(mapFn, [item]) == Output(mapFn, item)
  {
    assert [item][..0] == [];
  }

  lemma EmittedAppend<V, K, R>(mapFn: V -> Option<seq<(K, R)>>, items: seq<V>, item: V)
    ensures Emitted(mapFn, items + [item]) == Emitted(mapFn, items) + Output(mapFn, item)
  {
    assert (items + [item])[..|items|] == items;
  }

  /** Taking one item out takes out what it emits. */
  lemma EmittedTake<V, K, R>(mapFn: V -> Option<seq<(K, R)>>, items: seq<V>, i: nat)
    requires i < |items|
    ensures multiset(Emitted(mapFn, items))
         == multiset(Emitted(mapFn, items[..i] + items[i + 1..])) + multiset(Output(mapFn, items[i]))
  {
    var front, item, back := items[..i], items[i], items[i + 1..];
    assert items == front + ([item] + back);
    EmittedAround(mapFn, front, item, back);
  }

  lemma EmittedAround<V, K, R>(mapFn: V -> Option<seq<(K, R)>>, front: seq<V>, item: V, back: seq<V>)
    ensures multiset(Emitted(mapFn, front + ([item] + back)))
         == multiset(Emitted(mapFn, front + back)) + multiset(Output(mapFn, item))
  {
    EmittedConcat(mapFn, front, [item] + back);
    EmittedConcat(mapFn, [item], back);
    EmittedConcat(mapFn, front, back);
    EmittedOne(mapFn, item);
  }

  lemma {:induction false} ValuesConcat<K, R>(a: seq<(K, R)>, b: seq<(K, R)>, key: K)
    ensures Values(a + b, key) == Values(a, key) + Values(b, key)
  {
    if b == [] {
      assert a + b == a;
    } else {
      assert (a + b)[..|a + b| - 1] == a + b[..|b| - 1];
      ValuesConcat(a, b[..|b| - 1], key);
    }
  }

  lemma ValuesOne<K, R>(pair: (K, R), key: K)
    ensures Values([pair], key) == if pair.0 == key then [pair.1] else []
  {
    assert [pair][..0] == [];
  }

  lemma ValuesAround<K, R>(front: seq<(K, R)>, pair: (K, R), back: seq<(K, R)>, key: K)
    ensures Values(front + ([pair] + back), key)
         == Values(front, key) + ((if pair.0 == key then [pair.1] else []) + Values(back, key))
    ensures Values(front + back, key) == Values(front, key) + Values(back, key)
  {
    ValuesConcat(front, [pair] + back, key);
    ValuesConcat([pair], back, key);
    ValuesConcat(front, back, key);
    ValuesOne(pair, key);
  }

  /** Taking one pair out takes out its value. */
  lemma ValuesTake<K, R>(pairs: seq<(K, R)>, i: nat, key: K)
    requires i < |pairs|
    ensures multiset(Values(pairs, key))
         == multiset(Values(pairs[..i] + pairs[i + 1..], key))
          + if pairs[i].0 == key then multiset{pairs[i].1} else multiset{}
  {
    var front, pair, back := pairs[..i], pairs[i], pairs[i + 1..];
    assert pairs == front + ([pair] + back);
    ValuesAround(front, pair, back, key);
  }

  lemma BagTake<T>(q: seq<T>, i: nat)
    requires i < |q|
    ensures multiset(q) == multiset(q[..i] + q[i + 1..]) + multiset{q[i]}
  {
    assert q == q[..i] + [q[i]] + q[i + 1..];
  }

  /** The values under a key, as a bag, do not depend on the order of the pairs. */
  lemma {:induction false} ValuesOfPermutation<K, R>(a: seq<(K, R)>, b: seq<(K, R)>, key: K)
    requires multiset(a) == multiset(b)
    ensures multiset(Values(a, key)) == multiset(Values(b, key))
    decreases |a|
  {
    if a == [] {
      assert |multiset(b)| == 0;
    } else {
      var before, last := a[..|a| - 1], a[|a| - 1];
      assert a == before + [last];
      assert last in multiset(b);
      var i :| 0 <= i < |b| && b[i] == last;
      var rest := b[..i] + b[i + 1..];
      BagTake(b, i);
      assert multiset(before) == multiset(a) - multiset{last};
      assert multiset(rest) == multiset(b) - multiset{last};
      ValuesOfPermutation(before, rest, key);
      ValuesTake(b, i, key);
    }
  }

  lemma KeysOfPermutation<K, R>(a: seq<(K, R)>, b: seq<(K, R)>)
    requires multiset(a) == multiset(b)
    ensures Keys(a) == Keys(b)
  {
    KeysWithin(a, b);
    KeysWithin(b, a);
  }

  lemma KeysWithin<K, R>(a: seq<(K, R)>, b: seq<(K, R)>)
    requires multiset(a) == multiset(b)
    ensures Keys(a) <= Keys(b)
  {
    forall k | k in Keys(a) ensures k in Keys(b) {
      var i :| 0 <= i < |a| && a[i].0 == k;
      assert a[i] in multiset(b);
      var j :| 0 <= j < |b| && b[j] == a[i];
    }
  }

  /** The reduction does not care about the order of its values. */
  ghost predicate OrderBlind<K(!new), R(!new)>(reduceFn: (K, seq<R>) -> Option<R>) {
    forall k, a, b :: multiset(a) == multiset(b) ==> reduceFn(k, a) == reduceFn(k, b)
  }

  // ---------------------------------------------------------------- jobs

  /** A set of running jobs, and the most there have been at once. */
  class JoinSet<J> {
    var jobs: seq<J>
    ghost var peak: nat

    constructor ()
      ensures jobs == [] && peak == 0
    {
      jobs, peak := [], 0;
    }

    method Spawn(job: J)
      modifies this
      ensures jobs == old(jobs) + [job]
      ensures peak == if old(peak) > |jobs| then old(peak) else |jobs|
    {
      jobs := jobs + [job];
      peak := if peak > |jobs| then peak else |jobs|;
    }

    /** Some job that has finished, whichever it is; `None` when there are no jobs. */
    method JoinNext() returns (job: Option<J>, ghost i: nat)
      modifies `jobs
      ensures job.None? <==> old(jobs) == []
      ensures job.None? ==> jobs == old(jobs)
      ensures job.Some? ==> i < |old(jobs)| && job.value == old(jobs)[i] && jobs == old(jobs[..i] + jobs[i + 1..])
    {
      i := 0;
      if jobs == [] {
        return None, 0;
      }
      var finished :| 0 <= finished < |jobs|;
      i, job := finished, Some(jobs[finished]);
      jobs := jobs[..finished] + jobs[finished + 1..];
    }
  }

  class MapReduce<V, K(==,!new), R(!new)> {
    const maxConcurrentTasks: nat

    constructor (maxConcurrentTasks: nat)
      requires 0 < maxConcurrentTasks
      ensures this.maxConcurrentTasks == maxConcurrentTasks
    {
      this.maxConcurrentTasks := maxConcurrentTasks;
    }

    /** What has been joined and what is still running together are what has been started. */
    ghost predicate Mapping(mapFn: V -> Option<seq<(K, R)>>, started: seq<V>, jobs: seq<V>, mapped: seq<(K, R)>) {
      && multiset(mapped) + multiset(Emitted(mapFn, jobs)) == multiset(Emitted(mapFn, started))
      && Running(mapFn, started, jobs)
    }

    /** Only what was started runs, and what has panicked is still there to be joined. */
    ghost predicate Running(mapFn: V -> Option<seq<(K, R)>>, started: seq<V>, jobs: seq<V>) {
      && (forall i :: 0 <= i < |jobs| ==> jobs[i] in started)
      && (forall i :: 0 <= i < |started| ==> mapFn(started[i]).Some? || started[i] in jobs)
    }

    lemma StartKeepsMapping(mapFn: V -> Option<seq<(K, R)>>, started: seq<V>, jobs: seq<V>, mapped: seq<(K, R)>,
        item: V)
      requires Mapping(mapFn, started, jobs, mapped)
      ensures Mapping(mapFn, started + [item], jobs + [item], mapped)
    {
      EmittedAppend(mapFn, started, item);
      EmittedAppend(mapFn, jobs, item);
      assert item in jobs + [item];
    }

    lemma JoinKeepsRunning(mapFn: V -> Option<seq<(K, R)>>, started: seq<V>, jobs: seq<V>, i: nat)
      requires Running(mapFn, started, jobs) && i < |jobs| && mapFn(jobs[i]).Some?
      ensures Running(mapFn, started, jobs[..i] + jobs[i + 1..])
    {
      var rest := jobs[..i] + jobs[i + 1..];
      forall n | 0 <= n < |started| ensures mapFn(started[n]).Some? || started[n] in rest {
        if mapFn(started[n]).None? {
          var m :| 0 <= m < |jobs| && jobs[m] == started[n];
          assert rest[if m < i then m else m - 1] == started[n];
        }
      }
    }

    lemma JoinKeepsMapping(mapFn: V -> Option<seq<(K, R)>>, started: seq<V>, jobs: seq<V>, mapped: seq<(K, R)>, i: nat)
      requires Mapping(mapFn, started, jobs, mapped) && i < |jobs| && mapFn(jobs[i]).Some?
      ensures Mapping(mapFn, started, jobs[..i] + jobs[i + 1..], mapped + mapFn(jobs[i]).value)
    {
      EmittedTake(mapFn, jobs, i);
      JoinKeepsRunning(mapFn, started, jobs, i);
    }

    /** Joins one job into the result; `ok` is false when it panicked. */
    method JoinMapped(mapFn: V -> Option<seq<(K, R)>>, jobs: JoinSet<V>, mapped: seq<(K, R)>, ghost started: seq<V>)
      returns (longer: seq<(K, R)>, ok: bool)
      requires jobs.jobs != [] && Mapping(mapFn, started, jobs.jobs, mapped)
      modifies jobs`jobs
      ensures |jobs.jobs| == |old(jobs.jobs)| - 1
      ensures ok ==> Mapping(mapFn, started, jobs.jobs, longer)
      ensures !ok ==> !AllMap(mapFn, started)
    {
      var job, i := jobs.JoinNext();
      longer, ok := mapped, false;
      if mapFn(job.value).Some? {
        JoinKeepsMapping(mapFn, started, old(jobs.jobs), mapped, i);
        longer, ok := mapped + mapFn(job.value).value, true;
      } else {
        assert job.value in started;
      }
    }

    /** Starts one more job, joining another first when there is no room. */
    method StartMap(mapFn: V -> Option<seq<(K, R)>>, jobs: JoinSet<V>, mapped: seq<(K, R)>, item: V,
        ghost started: seq<V>)
      returns (longer: seq<(K, R)>, ok: bool)
      requires 0 < maxConcurrentTasks && |jobs.jobs| <= maxConcurrentTasks && jobs.peak <= maxConcurrentTasks
      requires Mapping(mapFn, started, jobs.jobs, mapped)
      modifies jobs
      ensures |jobs.jobs| <= maxConcurrentTasks && jobs.peak <= maxConcurrentTasks
      ensures ok ==> Mapping(mapFn, started + [item], jobs.jobs, longer)
      ensures !ok ==> !AllMap(mapFn, started)
    {
      longer, ok := mapped, true;
      if |jobs.jobs| == maxConcurrentTasks {
        longer, ok := JoinMapped(mapFn, jobs, mapped, started);
        if !ok {
          return;
        }
      }
      StartKeepsMapping(mapFn, started, jobs.jobs, longer, item);
      jobs.Spawn(item);
    }

    /** Joins all that is still running. */
    method DrainMapped(mapFn: V -> Option<seq<(K, R)>>, jobs: JoinSet<V>, mapped: seq<(K, R)>, ghost started: seq<V>)
      returns (longer: seq<(K, R)>, ok: bool)
      requires Mapping(mapFn, started, jobs.jobs, mapped)
      modifies jobs`jobs
      ensures ok ==> Mapping(mapFn, started, [], longer)
      ensures !ok ==> !AllMap(mapFn, started)
    {
      longer, ok := mapped, true;
      while jobs.jobs != []
        invariant ok && Mapping(mapFn, started, jobs.jobs, longer)
        decreases |jobs.jobs|
      {
        longer, ok := JoinMapped(mapFn, jobs, longer, started);
        if !ok {
          return;
        }
      }
    }

    /** All that was emitted, in some order, with never more than `maxConcurrentTasks` jobs. */
    method MapPhase(input: seq<V>, mapFn: V -> Option<seq<(K, R)>>)
        returns (mapped: Option<seq<(K, R)>>, ghost peak: nat)
      requires 0 < maxConcurrentTasks
      ensures mapped.Some? <==> AllMap(mapFn, input)
      ensures mapped.Some? ==> multiset(mapped.value) == multiset(Emitted(mapFn, input))
      ensures peak <= maxConcurrentTasks
    {
      var jobs := new JoinSet<V>();
      var pairs: seq<(K, R)>, ok := [], true;
      for n := 0 to |input|
        invariant fresh(jobs) && |jobs.jobs| <= maxConcurrentTasks && jobs.peak <= maxConcurrentTasks
        invariant Mapping(mapFn, input[..n], jobs.jobs, pairs)
      {
        assert input[..n + 1] == input[..n] + [input[n]];
        pairs, ok := StartMap(mapFn, jobs, pairs, input[n], input[..n]);
        if !ok {
          assert !AllMap(mapFn, input);
          return None, jobs.peak;
        }
      }
      assert input[..|input|] == input;
      pairs, ok := DrainMapped(mapFn, jobs, pairs, input);
      mapped, peak := if ok then Some(pairs) else None, jobs.peak;
    }

    /** The values of every key, in the order of the pairs. */
    method ShufflePhase(pairs: seq<(K, R)>) returns (grouped: map<K, seq<R>>)
      ensures grouped.Keys == Keys(pairs) && forall k :: k in grouped ==> grouped[k] == Values(pairs, k)
    {
      grouped := map[];
      for n := 0 to |pairs|
        invariant grouped.Keys == Keys(pairs[..n])
        invariant forall k :: k in grouped ==> grouped[k] == Values(pairs[..n], k)
        invariant forall k :: k !in grouped ==> Values(pairs[..n], k) == []
      {
        var key, value := pairs[n].0, pairs[n].1;
        assert pairs[..n + 1][..n] == pairs[..n];
        KeysAppend(pairs, n);
        grouped := grouped[key := (if key in grouped then grouped[key] else []) + [value]];
      }
      assert pairs[..|pairs|] == pairs;
    }

    /** What has been joined is right, and every started group is joined or running. */
    ghost predicate Reducing(reduceFn: (K, seq<R>) -> Option<R>, grouped: map<K, seq<R>>, started: set<K>,
        jobs: seq<(K, seq<R>)>, reduced: map<K, R>)
    {
      && started <= grouped.Keys && reduced.Keys <= started
      && (forall i :: 0 <= i < |jobs| ==> jobs[i].0 in started && jobs[i].1 == grouped[jobs[i].0])
      && (forall k :: k in reduced ==> reduceFn(k, grouped[k]) == Some(reduced[k]))
      && (forall k :: k in started ==> k in reduced || exists i :: 0 <= i < |jobs| && jobs[i].0 == k)
    }

    lemma JoinKeepsReducing(
      reduceFn: (K, seq<R>) -> Option<R>, grouped: map<K, seq<R>>, started: set<K>, jobs: seq<(K, seq<R>)>,
      reduced: map<K, R>,
      i: nat, value: R)
      requires Reducing(reduceFn, grouped, started, jobs, reduced) && i < |jobs|
      requires reduceFn(jobs[i].0, jobs[i].1) == Some(value)
      ensures Reducing(reduceFn, grouped, started, jobs[..i] + jobs[i + 1..], reduced[jobs[i].0 := value])
    {
      var rest, more := jobs[..i] + jobs[i + 1..], reduced[jobs[i].0 := value];
      forall k | k in started ensures k in more || exists n :: 0 <= n < |rest| && rest[n].0 == k {
        if k !in more {
          var m :| 0 <= m < |jobs| && jobs[m].0 == k;
          assert rest[if m < i then m else m - 1].0 == k;
        }
      }
    }

    lemma StartKeepsReducing(
      reduceFn: (K, seq<R>) -> Option<R>, grouped: map<K, seq<R>>, started: set<K>, jobs: seq<(K, seq<R>)>,
      reduced: map<K, R>, key: K)
      requires Reducing(reduceFn, grouped, started, jobs, reduced) && key in grouped
      ensures Reducing(reduceFn, grouped, started + {key}, jobs + [(key, grouped[key])], reduced)
    {
      var more := jobs + [(key, grouped[key])];
      forall k | k in started + {key} ensures k in reduced || exists n :: 0 <= n < |more| && more[n].0 == k {
        if k in started && k !in reduced {
          var m :| 0 <= m < |jobs| && jobs[m].0 == k;
          assert more[m].0 == k;
        } else if k == key {
          assert more[|jobs|].0 == k;
        }
      }
    }

    method JoinReduced(
      reduceFn: (K, seq<R>) -> Option<R>, grouped: map<K, seq<R>>, jobs: JoinSet<(K, seq<R>)>, reduced: map<K, R>,
      ghost started: set<K>)
      returns (more: map<K, R>, ok: bool)
      requires jobs.jobs != [] && Reducing(reduceFn, grouped, started, jobs.jobs, reduced)
      modifies jobs`jobs
      ensures |jobs.jobs| == |old(jobs.jobs)| - 1
      ensures ok ==> Reducing(reduceFn, grouped, started, jobs.jobs, more)
      ensures !ok ==> exists k :: k in grouped && reduceFn(k, grouped[k]).None?
    {
      var job, i := jobs.JoinNext();
      var key, values := job.value.0, job.value.1;
      var value := reduceFn(key, values);
      more, ok := reduced, false;
      if value.Some? {
        JoinKeepsReducing(reduceFn, grouped, started, old(jobs.jobs), reduced, i, value.value);
        more, ok := reduced[key := value.value], true;
      } else {
        assert key in grouped && reduceFn(key, grouped[key]).None?;
      }
    }

    /** Every group reduced, whichever order the groups start and finish in. */
    method ReducePhase(grouped: map<K, seq<R>>, reduceFn: (K, seq<R>) -> Option<R>)
      returns (result: Option<map<K, R>>, ghost peak: nat)
      requires 0 < maxConcurrentTasks
      ensures result.Some? <==> forall k :: k in grouped ==> reduceFn(k, grouped[k]).Some?
      ensures result.Some? ==> result.value.Keys == grouped.Keys
      ensures result.Some? ==> forall k :: k in grouped ==> reduceFn(k, grouped[k]) == Some(result.value[k])
      ensures peak <= maxConcurrentTasks
    {
      var jobs := new JoinSet<(K, seq<R>)>();
      var reduced: map<K, R>, ok := map[], true;
      var remaining := grouped.Keys;
      while remaining != {}
        invariant fresh(jobs) && |jobs.jobs| <= maxConcurrentTasks && jobs.peak <= maxConcurrentTasks
        invariant remaining <= grouped.Keys && Reducing(reduceFn, grouped, grouped.Keys - remaining, jobs.jobs, reduced)
        decreases remaining
      {
        ghost var started := grouped.Keys - remaining;
        var key :| key in remaining;
        if |jobs.jobs| == maxConcurrentTasks {
          reduced, ok := JoinReduced(reduceFn, grouped, jobs, reduced, started);
          if !ok {
            return None, jobs.peak;
          }
        }
        StartKeepsReducing(reduceFn, grouped, started, jobs.jobs, reduced, key);
        remaining := remaining - {key};
        assert started + {key} == grouped.Keys - remaining;
        jobs.Spawn((key, grouped[key]));
      }
      assert grouped.Keys - remaining == grouped.Keys;
      while jobs.jobs != []
        invariant fresh(jobs) && jobs.peak <= maxConcurrentTasks
        invariant Reducing(reduceFn, grouped, grouped.Keys, jobs.jobs, reduced)
        decreases |jobs.jobs|
      {
        reduced, ok := JoinReduced(reduceFn, grouped, jobs, reduced, grouped.Keys);
        if !ok {
          return None, jobs.peak;
        }
      }
      result, peak := Some(reduced), jobs.peak;
    }

    /**
     * For every order in which the jobs finish, the result has exactly the emitted keys, each reduced
     * from its values in some order; and it is the sequential result when the reduction ignores order.
     */
    method Execute(input: seq<V>, mapFn: V -> Option<seq<(K, R)>>, reduceFn: (K, seq<R>) -> Option<R>)
      returns (result: Option<map<K, R>>, ghost mapped: seq<(K, R)>, ghost peak: nat)
      requires 0 < maxConcurrentTasks
      ensures peak <= maxConcurrentTasks
      ensures IsSomeResult(mapFn, reduceFn, input, mapped, result)
      ensures OrderBlind(reduceFn) ==> IsSequentialResult(mapFn, reduceFn, input, result)
    {
      var pairs, mapPeak := MapPhase(input, mapFn);
      mapped, peak := [], mapPeak;
      if pairs.None? {
        return None, mapped, peak;
      }
      mapped := pairs.value;
      KeysOfPermutation(mapped, Emitted(mapFn, input));
      var grouped := ShufflePhase(pairs.value);
      ghost var reducePeak;
      result, reducePeak := ReducePhase(grouped, reduceFn);
      peak := if mapPeak > reducePeak then mapPeak else reducePeak;
      if OrderBlind(reduceFn) {
        OrderBlindIsSequential(mapFn, reduceFn, input, mapped, result);
      }
    }
  }

  lemma KeysAppend<K, R>(pairs: seq<(K, R)>, n: nat)
    requires n < |pairs|
    ensures Keys(pairs[..n + 1]) == Keys(pairs[..n]) + {pairs[n].0}
  {
    var longer, shorter := pairs[..n + 1], pairs[..n];
    forall k | k in Keys(longer) ensures k in Keys(shorter) + {pairs[n].0} {
      var i :| 0 <= i < |longer| && longer[i].0 == k;
      assert i < n ==> shorter[i].0 == k;
    }
    forall k | k in Keys(shorter) + {pairs[n].0} ensures k in Keys(longer) {
      if k == pairs[n].0 {
        assert longer[n].0 == k;
      } else {
        var i :| 0 <= i < |shorter| && shorter[i].0 == k;
        assert longer[i].0 == k;
      }
    }
  }

  /** A result that some order of completion gives: `mapped` is what the map jobs handed back, in that order. */
  ghost predicate IsSomeResult<V, K, R>(
    mapFn: V -> Option<seq<(K, R)>>, reduceFn: (K, seq<R>) -> Option<R>, input: seq<V>,
    mapped: seq<(K, R)>, result: Option<map<K, R>>)
  {
    if AllMap(mapFn, input) then
      && multiset(mapped) == multiset(Emitted(mapFn, input))
      && (result.Some? <==> forall k :: k in Keys(mapped) ==> reduceFn(k, Values(mapped, k)).Some?)
      && (result.Some? ==> result.value.Keys == Keys(Emitted(mapFn, input)))
      && (result.Some? ==> forall k :: k in result.value ==> reduceFn(k, Values(mapped, k)) == Some(result.value[k]))
    else result.None?
  }

  /**
   * Confluence: when the reduction ignores the order of its values, whatever order the jobs finish
   * in, the result is that of mapping, grouping and reducing one after the other.
   */
  lemma OrderBlindIsSequential<V, K(!new), R(!new)>(
    mapFn: V -> Option<seq<(K, R)>>, reduceFn: (K, seq<R>) -> Option<R>, input: seq<V>,
    mapped: seq<(K, R)>, result: Option<map<K, R>>)
    requires OrderBlind(reduceFn) && IsSomeResult(mapFn, reduceFn, input, mapped, result)
    ensures IsSequentialResult(mapFn, reduceFn, input, result)
  {
    if AllMap(mapFn, input) {
      var pairs := Emitted(mapFn, input);
      KeysOfPermutation(mapped, pairs);
      forall k ensures reduceFn(k, Values(mapped, k)) == reduceFn(k, Values(pairs, k)) {
        ValuesOfPermutation(mapped, pairs, k);
      }
    }
  }
}
