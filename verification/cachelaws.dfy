/**
 * What a cache promises about recency and about values, stated on the calls alone: which key an insert
 * pushes out, what stays, and what every lookup returns.
 */
module CacheLaws {
  import opened Wrappers
  import opened Sequences
  import opened MemoryCaching

  // ---------------------------------------------------------------- recency

  /** The call stores the key or looks it up. */
  predicate Uses<K(==), V>(t: Timed<K, V>, key: K) {
    (t.call.Store? || t.call.Fetch?) && t.call.key == key
  }

  /** When the key was last used: the number of calls up to then, 0 if it never was. */
  function LastUse<K(==), V>(trace: seq<Timed<K, V>>, key: K): (n: nat)
    ensures n <= |trace|
  {
    if trace == [] then 0
    else if Uses(trace[|trace| - 1], key) then |trace|
    else LastUse(trace[..|trace| - 1], key)
  }

  ghost predicate ByLastUse<K, V>(queue: seq<K>, trace: seq<Timed<K, V>>) {
    forall i, j :: 0 <= i < j < |queue| ==> LastUse(trace, queue[i]) < LastUse(trace, queue[j])
  }

  lemma {:induction false} RestrictKeepsOrder<K, V>(queue: seq<K>, keep: set<K>, trace: seq<Timed<K, V>>)
    requires ByLastUse(queue, trace)
    ensures ByLastUse(Restrict(queue, keep), trace)
    ensures forall k :: k in Restrict(queue, keep) ==> k in queue && k in keep
  {
    if queue != [] {
      assert forall i :: 0 <= i < |queue[1..]| ==> queue[1..][i] == queue[i + 1];
      RestrictKeepsOrder(queue[1..], keep, trace);
      var rest := Restrict(queue[1..], keep);
      forall k | k in rest ensures LastUse(trace, queue[0]) < LastUse(trace, k) {
        assert k in queue[1..];
      }
    }
  }

  /** A call that uses nothing in the queue does not disturb it. */
  lemma OrderOutlivesCall<K, V>(queue: seq<K>, trace: seq<Timed<K, V>>, t: Timed<K, V>)
    requires ByLastUse(queue, trace) && forall k :: k in queue ==> !Uses(t, k)
    ensures ByLastUse(queue, trace + [t])
  {
    var longer := trace + [t];
    assert longer[..|trace|] == trace;
    forall k | k in queue ensures LastUse(longer, k) == LastUse(trace, k) {
    }
  }

  /** The key that a call uses goes to the end. */
  lemma UsedKeyGoesLast<K, V>(queue: seq<K>, trace: seq<Timed<K, V>>, t: Timed<K, V>, key: K)
    requires ByLastUse(queue, trace) && key !in queue && Uses(t, key)
    ensures ByLastUse(queue + [key], trace + [t])
  {
    OrderOutlivesCall(queue, trace, t);
    assert (trace + [t])[..|trace|] == trace;
    forall k | k in queue ensures LastUse(trace + [t], k) < LastUse(trace + [t], key) {
    }
  }

  lemma WithoutKeepsOrder<K, V>(queue: seq<K>, key: K, trace: seq<Timed<K, V>>)
    requires ByLastUse(queue, trace) && NoDuplicates(queue)
    ensures ByLastUse(Without(queue, key), trace) && key !in Without(queue, key)
    ensures forall k :: k in Without(queue, key) ==> k in queue
  {
    WithoutAsRestrict(queue, key);
    RestrictKeepsOrder(queue, Elements(queue) - {key}, trace);
  }

  lemma StoreKeepsOrder<K, V>(c: Lru<K, V>, capacity: nat, trace: seq<Timed<K, V>>, t: Timed<K, V>, c': Lru<K, V>)
    requires 0 < capacity && WellFormed(c, capacity) && ByLastUse(c.recency, trace)
    requires t.call.Store? && c' == Apply(c, capacity, t)
    ensures ByLastUse(c'.recency, trace + [t])
  {
    var entry := Entry(t.call.value, t.now + t.call.ttl);
    var p := Put(c, t.call.key, entry);
    InsertShape(c, capacity, t.call.key, entry);
    WithoutKeepsOrder(c.recency, t.call.key, trace);
    UsedKeyGoesLast(Without(c.recency, t.call.key), trace, t, t.call.key);
    if |p.entries| > capacity {
      RestrictKeepsOrder(p.recency, p.entries.Keys - {p.recency[0]}, trace + [t]);
    }
  }

  lemma FetchKeepsOrder<K, V>(c: Lru<K, V>, capacity: nat, trace: seq<Timed<K, V>>, t: Timed<K, V>, c': Lru<K, V>)
    requires Coherent(c) && ByLastUse(c.recency, trace)
    requires t.call.Fetch? && c' == Apply(c, capacity, t)
    ensures ByLastUse(c'.recency, trace + [t])
  {
    WithoutKeepsOrder(c.recency, t.call.key, trace);
    if t.call.key !in c.entries {
      assert forall k :: k in c.recency ==> k in Elements(c.recency);
      OrderOutlivesCall(c.recency, trace, t);
    } else if c.entries[t.call.key].Expired(t.now) {
      OrderOutlivesCall(Without(c.recency, t.call.key), trace, t);
    } else {
      UsedKeyGoesLast(Without(c.recency, t.call.key), trace, t, t.call.key);
    }
  }

  lemma RemovalKeepsOrder<K, V>(c: Lru<K, V>, capacity: nat, trace: seq<Timed<K, V>>, t: Timed<K, V>, c': Lru<K, V>)
    requires Coherent(c) && ByLastUse(c.recency, trace)
    requires !t.call.Store? && !t.call.Fetch? && c' == Apply(c, capacity, t)
    ensures ByLastUse(c'.recency, trace + [t])
  {
    if t.call.Delete? {
      WithoutKeepsOrder(c.recency, t.call.key, trace);
    } else if t.call.DeleteWhere? {
      RestrictKeepsOrder(c.recency, c.entries.Keys - Matching(c, t.call.accept), trace);
    } else if t.call.Count? {
      RestrictKeepsOrder(c.recency, c.entries.Keys - ExpiredKeys(c, t.now), trace);
    }
    OrderOutlivesCall(c'.recency, trace, t);
  }

  lemma RunAppend<K, V>(capacity: nat, trace: seq<Timed<K, V>>, t: Timed<K, V>)
    ensures Run(capacity, trace + [t]) == Apply(Run(capacity, trace), capacity, t)
  {
    assert (trace + [t])[..|trace|] == trace;
  }

  /** The recency queue lists the keys in the order in which they were last stored or looked up. */
  lemma {:induction false} RecencyIsLastUse<K, V>(capacity: nat, trace: seq<Timed<K, V>>)
    requires 0 < capacity
    ensures ByLastUse(Run(capacity, trace).recency, trace)
  {
    if trace != [] {
      var before, t := trace[..|trace| - 1], trace[|trace| - 1];
      var c := Run(capacity, before);
      assert trace == before + [t];
      RecencyIsLastUse(capacity, before);
      RunWellFormed(capacity, before);
      if t.call.Store? {
        StoreKeepsOrder(c, capacity, before, t, Run(capacity, trace));
      } else if t.call.Fetch? {
        FetchKeepsOrder(c, capacity, before, t, Run(capacity, trace));
      } else {
        RemovalKeepsOrder(c, capacity, before, t, Run(capacity, trace));
      }
    }
  }

  /** No other key was used longer ago. */
  ghost predicate LeastRecentlyUsed<K, V>(c: Lru<K, V>, trace: seq<Timed<K, V>>, key: K) {
    key in c.entries && forall other :: other in c.entries ==> LastUse(trace, key) <= LastUse(trace, other)
  }

  lemma HeadIsLeastRecent<K, V>(c: Lru<K, V>, trace: seq<Timed<K, V>>, key: K)
    requires Coherent(c) && ByLastUse(c.recency, trace) && c.recency != []
    ensures LeastRecentlyUsed(c, trace, key) <==> key == c.recency[0]
  {
    assert forall k :: k in c.entries <==> k in c.recency;
    assert c.recency[0] in c.entries;
    if key in c.entries {
      var i :| 0 <= i < |c.recency| && c.recency[i] == key;
      assert i > 0 ==> LastUse(trace, c.recency[0]) < LastUse(trace, c.recency[i]);
    }
  }

  lemma InsertEvictsIff<K, V>(c: Lru<K, V>, capacity: nat, key: K, entry: Entry<V>, other: K)
    requires 0 < capacity && WellFormed(c, capacity) && other in c.entries
    ensures c.recency != []
    ensures other !in Inserted(c, capacity, key, entry).entries <==>
      key !in c.entries && |c.entries| == capacity && other == c.recency[0]
  {
    InsertShape(c, capacity, key, entry);
    PutCoherent(c, key, entry);
    assert other in Elements(c.recency);
    if key !in c.entries {
      assert key !in Elements(c.recency);
      WithoutAbsent(c.recency, key);
    }
  }

  /**
   * What a store pushes out: nothing while there is room or the key is there already, and otherwise
   * exactly the key that was stored or looked up longest ago.
   */
  lemma EvictedIff<K, V>(capacity: nat, trace: seq<Timed<K, V>>, t: Timed<K, V>, key: K)
    requires 0 < capacity && t.call.Store? && key in Run(capacity, trace).entries
    ensures var c := Run(capacity, trace);
      key !in Run(capacity, trace + [t]).entries
      <==> t.call.key !in c.entries && |c.entries| == capacity && LeastRecentlyUsed(c, trace, key)
  {
    RunAppend(capacity, trace, t);
    RunWellFormed(capacity, trace);
    RecencyIsLastUse(capacity, trace);
    InsertEvictsIff(Run(capacity, trace), capacity, t.call.key, Entry(t.call.value, t.now + t.call.ttl), key);
    HeadIsLeastRecent(Run(capacity, trace), trace, key);
  }

  // ---------------------------------------------------------------- values

  /** The value last stored under the key and the instant at which it lapses. */
  function LastStored<K(==), V>(trace: seq<Timed<K, V>>, key: K): Option<(V, nat)> {
    if trace == [] then None
    else
      var t := trace[|trace| - 1];
      if t.call.Store? && t.call.key == key then Some((t.call.value, t.now + t.call.ttl))
      else LastStored(trace[..|trace| - 1], key)
  }

  /** Where an entry comes from: this very store, or it was there before. */
  lemma EntryBefore<K, V>(c: Lru<K, V>, capacity: nat, t: Timed<K, V>, c': Lru<K, V>, key: K)
    requires 0 < capacity && WellFormed(c, capacity) && c' == Apply(c, capacity, t) && key in c'.entries
    ensures t.call.Store? && t.call.key == key ==> c'.entries[key] == Entry(t.call.value, t.now + t.call.ttl)
    ensures !(t.call.Store? && t.call.key == key) ==> key in c.entries && c'.entries[key] == c.entries[key]
  {
    if t.call.Store? {
      InsertShape(c, capacity, t.call.key, Entry(t.call.value, t.now + t.call.ttl));
    }
  }

  /** Every entry of the cache is what was last stored under its key. */
  lemma {:induction false} EntriesAreLastStored<K, V>(capacity: nat, trace: seq<Timed<K, V>>, key: K)
    requires 0 < capacity && key in Run(capacity, trace).entries
    ensures var e := Run(capacity, trace).entries[key]; LastStored(trace, key) == Some((e.value, e.expiresAt))
  {
    if trace != [] {
      var before, t := trace[..|trace| - 1], trace[|trace| - 1];
      RunWellFormed(capacity, before);
      EntryBefore(Run(capacity, before), capacity, t, Run(capacity, trace), key);
      if !(t.call.Store? && t.call.key == key) {
        EntriesAreLastStored(capacity, before, key);
      }
    }
  }

  /** What was last stored under the key has lapsed. */
  predicate Lapses<K(==), V>(trace: seq<Timed<K, V>>, key: K, now: nat) {
    var last := LastStored(trace, key);
    last.Some? && last.value.1 <= now
  }

  /** A lookup returns the value last stored if and only if the key is still held and has not lapsed. */
  lemma FetchedIff<K, V>(capacity: nat, trace: seq<Timed<K, V>>, key: K, now: nat, value: V)
    requires 0 < capacity
    ensures ReplyTo(Run(capacity, trace), Timed(now, Fetch(key))) == Value(Some(value)) <==>
      && key in Run(capacity, trace).entries && !Lapses(trace, key, now)
      && LastStored(trace, key).Some? && LastStored(trace, key).value.0 == value
  {
    if key in Run(capacity, trace).entries {
      EntriesAreLastStored(capacity, trace, key);
    }
  }

  /** A removal returns the value last stored if the key is still held, lapsed or not. */
  lemma DeletedIff<K, V>(capacity: nat, trace: seq<Timed<K, V>>, key: K, now: nat, value: V)
    requires 0 < capacity
    ensures ReplyTo(Run(capacity, trace), Timed(now, Delete(key))) == Value(Some(value)) <==>
      && key in Run(capacity, trace).entries
      && LastStored(trace, key).Some? && LastStored(trace, key).value.0 == value
  {
    if key in Run(capacity, trace).entries {
      EntriesAreLastStored(capacity, trace, key);
    }
  }

  /** Whether a call other than a store takes the key out. */
  ghost predicate TakesOut<K, V>(trace: seq<Timed<K, V>>, t: Timed<K, V>, key: K) {
    var last := LastStored(trace, key);
    || (t.call.Fetch? && t.call.key == key && Lapses(trace, key, t.now))
    || (t.call.Delete? && t.call.key == key)
    || (t.call.DeleteWhere? && last.Some? && t.call.accept(key, last.value.0))
    || (t.call.Count? && Lapses(trace, key, t.now))
    || t.call.Clear?
  }

  /** What every other call keeps, exactly. */
  lemma KeptIff<K, V>(capacity: nat, trace: seq<Timed<K, V>>, t: Timed<K, V>, key: K)
    requires 0 < capacity && !t.call.Store?
    ensures key in Run(capacity, trace + [t]).entries
       <==> key in Run(capacity, trace).entries && !TakesOut(trace, t, key)
  {
    RunAppend(capacity, trace, t);
    if key in Run(capacity, trace).entries {
      EntriesAreLastStored(capacity, trace, key);
    }
  }

  // ---------------------------------------------------------------- numbers

  /** The numbers returned: how many entries went, and how many are left. */
  lemma NumbersAreRight<K, V>(c: Lru<K, V>, capacity: nat, t: Timed<K, V>)
    ensures t.call.DeleteWhere? ==>
      ReplyTo(c, t) == Number(|c.entries| - |Apply(c, capacity, t).entries|)
    ensures t.call.Count? ==> ReplyTo(c, t) == Number(|Apply(c, capacity, t).entries|)
  {
    if t.call.DeleteWhere? {
      Left(c.entries, Matching(c, t.call.accept));
    }
  }

  lemma Left<K, V>(entries: map<K, V>, gone: set<K>)
    requires gone <= entries.Keys
    ensures |entries - gone| == |entries| - |gone|
  {
    assert (entries - gone).Keys == entries.Keys - gone;
    assert entries.Keys == (entries.Keys - gone) + gone;
  }

  /** Evictions are counted once for each entry that capacity or expiry took away. */
  lemma EvictionsAreCounted<K, V>(c: Lru<K, V>, capacity: nat, key: K, entry: Entry<V>, now: nat)
    requires 0 < capacity && WellFormed(c, capacity)
    ensures var p := Put(c, key, entry);
      Overflow(p, capacity) == |p.entries| - |Inserted(c, capacity, key, entry).entries|
    ensures Lapsed(c, key, now) == |c.entries| - |Touched(c, key, now).entries|
    ensures |ExpiredKeys(c, now)| == |c.entries| - |DropAll(c, ExpiredKeys(c, now)).entries|
  {
    var p := Put(c, key, entry);
    InsertShape(c, capacity, key, entry);
    PutCoherent(c, key, entry);
    if |p.entries| > capacity {
      assert p.recency[0] in Elements(p.recency);
      Left(p.entries, {p.recency[0]});
    }
    if key in c.entries {
      Left(c.entries, {key});
    }
    Left(c.entries, ExpiredKeys(c, now));
  }
}
