/**
 * The bounded LRU cache of core/src/cache.rs: a map of expiring entries and a recency queue.
 *
 * `Lru` is the state between two calls; the functions on it say what one call does to that state.
 * The class `MemoryCache` updates its fields in place as the source does and is proved against them.
 * The theorems compare whole traces: a small cache with a large one, and a cache with a plain map.
 */
module MemoryCaching {
  import opened Wrappers
  import opened Sequences

  datatype Entry<V> = Entry(value: V, expiresAt: nat) {
    predicate Expired(now: nat) { expiresAt <= now }
  }

  datatype Lru<K, V> = Lru(entries: map<K, Entry<V>>, recency: seq<K>)

  /** The queue lists every stored key exactly once. */
  ghost predicate Coherent<K, V>(c: Lru<K, V>) {
    NoDuplicates(c.recency) && Elements(c.recency) == c.entries.Keys
  }

  ghost predicate WellFormed<K, V>(c: Lru<K, V>, capacity: nat) {
    Coherent(c) && |c.entries| <= capacity
  }

  // ---------------------------------------------------------------- one call

  function Put<K, V>(c: Lru<K, V>, key: K, entry: Entry<V>): Lru<K, V> {
    Lru(c.entries[key := entry], Without(c.recency, key) + [key])
  }

  function Drop<K, V>(c: Lru<K, V>, key: K): Lru<K, V> {
    Lru(c.entries - {key}, Without(c.recency, key))
  }

  function DropAll<K, V>(c: Lru<K, V>, keys: set<K>): Lru<K, V> {
    Lru(c.entries - keys, Restrict(c.recency, c.entries.Keys - keys))
  }

  function Evict<K, V>(c: Lru<K, V>, capacity: nat): Lru<K, V>
    decreases |c.recency|
  {
    if |c.entries| <= capacity || c.recency == [] then c
    else Evict(Lru(c.entries - {c.recency[0]}, c.recency[1..]), capacity)
  }

  function Inserted<K, V>(c: Lru<K, V>, capacity: nat, key: K, entry: Entry<V>): Lru<K, V> {
    Evict(Put(c, key, entry), capacity)
  }

  predicate Live<K, V>(c: Lru<K, V>, key: K, now: nat) {
    key in c.entries && !c.entries[key].Expired(now)
  }

  function Touched<K, V>(c: Lru<K, V>, key: K, now: nat): Lru<K, V> {
    if key !in c.entries then c
    else if c.entries[key].Expired(now) then Drop(c, key)
    else Lru(c.entries, Without(c.recency, key) + [key])
  }

  function Found<K, V>(c: Lru<K, V>, key: K, now: nat): Option<V> {
    if Live(c, key, now) then Some(c.entries[key].value) else None
  }

  function Stored<K, V>(c: Lru<K, V>, key: K): Option<V> {
    if key in c.entries then Some(c.entries[key].value) else None
  }

  function Matching<K, V>(c: Lru<K, V>, accept: (K, V) -> bool): set<K> {
    set k | k in c.entries && accept(k, c.entries[k].value)
  }

  function ExpiredKeys<K, V>(c: Lru<K, V>, now: nat): set<K> {
    set k | k in c.entries && c.entries[k].Expired(now)
  }

  function MatchCount<K, V>(c: Lru<K, V>, accept: (K, V) -> bool): nat {
    |Matching(c, accept)|
  }

  function LiveCount<K, V>(c: Lru<K, V>, now: nat): nat {
    |DropAll(c, ExpiredKeys(c, now)).entries|
  }

  // ------------------------------------------------- each call keeps the invariant

  lemma WithoutAsRestrict<T>(q: seq<T>, x: T)
    requires NoDuplicates(q)
    ensures Without(q, x) == Restrict(q, Elements(q) - {x})
  {
    WithoutElements(q, x);
    RestrictAll(Without(q, x), Elements(q));
    WithoutIsRestrict(q, x, Elements(q));
  }

  lemma DropIsDropAll<K, V>(c: Lru<K, V>, key: K)
    requires Coherent(c)
    ensures Drop(c, key) == DropAll(c, {key})
  {
    WithoutAsRestrict(c.recency, key);
  }

  lemma DropAllCoherent<K, V>(c: Lru<K, V>, keys: set<K>)
    requires Coherent(c)
    ensures Coherent(DropAll(c, keys))
    ensures |DropAll(c, keys).entries| <= |c.entries|
  {
    RestrictElements(c.recency, c.entries.Keys - keys);
    SubsetSize((c.entries - keys).Keys, c.entries.Keys);
  }

  lemma DropAllWellFormed<K, V>(c: Lru<K, V>, keys: set<K>, capacity: nat)
    requires WellFormed(c, capacity)
    ensures WellFormed(DropAll(c, keys), capacity)
  {
    DropAllCoherent(c, keys);
  }

  lemma DropWellFormed<K, V>(c: Lru<K, V>, key: K, capacity: nat)
    requires WellFormed(c, capacity)
    ensures WellFormed(Drop(c, key), capacity)
  {
    DropIsDropAll(c, key);
    DropAllCoherent(c, {key});
  }

  lemma SubsetSize<T>(a: set<T>, b: set<T>)
    requires a <= b
    ensures |a| <= |b|
  {
    assert b == a + (b - a);
  }

  lemma AppendKey<T>(q: seq<T>, x: T)
    requires NoDuplicates(q)
    ensures NoDuplicates(Without(q, x) + [x])
    ensures Elements(Without(q, x) + [x]) == Elements(q) + {x}
  {
    WithoutElements(q, x);
    var w := Without(q, x);
    assert x !in Elements(w);
    assert forall y :: y in w + [x] <==> y == x || y in w;
    assert forall y :: y in Elements(w) + {x} <==> y == x || y in w;
  }

  lemma PutCoherent<K, V>(c: Lru<K, V>, key: K, entry: Entry<V>)
    requires Coherent(c)
    ensures Coherent(Put(c, key, entry))
    ensures |Put(c, key, entry).entries| == |c.entries| + if key in c.entries then 0 else 1
  {
    AppendKey(c.recency, key);
    assert Put(c, key, entry).entries.Keys == c.entries.Keys + {key};
  }

  lemma EvictOldest<K, V>(p: Lru<K, V>, capacity: nat)
    requires 0 < capacity && Coherent(p) && |p.entries| == capacity + 1
    ensures p.recency != []
    ensures Evict(p, capacity) == DropAll(p, {p.recency[0]})
  {
    SizeOfElements(p.recency);
    var oldest := p.recency[0];
    DropIsDropAll(p, oldest);
    assert oldest in Elements(p.recency);
    assert (p.entries - {oldest}).Keys == p.entries.Keys - {oldest};
    var rest := Lru(p.entries - {oldest}, p.recency[1..]);
    assert Evict(rest, capacity) == rest;
  }

  /** An insert into a cache within its capacity evicts nothing, or exactly the least recent key. */
  lemma InsertShape<K, V>(c: Lru<K, V>, capacity: nat, key: K, entry: Entry<V>)
    requires 0 < capacity && WellFormed(c, capacity)
    ensures Coherent(Put(c, key, entry))
    ensures |Put(c, key, entry).entries| > capacity ==> Put(c, key, entry).recency != []
    ensures var p := Put(c, key, entry);
            Inserted(c, capacity, key, entry) ==
            if |p.entries| <= capacity then p else DropAll(p, {p.recency[0]})
  {
    PutCoherent(c, key, entry);
    var p := Put(c, key, entry);
    if |p.entries| > capacity {
      EvictOldest(p, capacity);
    }
  }

  lemma InsertWellFormed<K, V>(c: Lru<K, V>, capacity: nat, key: K, entry: Entry<V>)
    requires 0 < capacity && WellFormed(c, capacity)
    ensures WellFormed(Inserted(c, capacity, key, entry), capacity)
  {
    InsertShape(c, capacity, key, entry);
    PutCoherent(c, key, entry);
    var p := Put(c, key, entry);
    if |p.entries| > capacity {
      var oldest := p.recency[0];
      DropAllCoherent(p, {oldest});
      assert oldest in Elements(p.recency);
      assert DropAll(p, {oldest}).entries.Keys == p.entries.Keys - {oldest};
    }
  }

  /** What an insert stores is still there when it returns, even after evicting. */
  lemma InsertKeepsNewest<K, V>(c: Lru<K, V>, capacity: nat, key: K, entry: Entry<V>)
    requires 0 < capacity && WellFormed(c, capacity)
    ensures key in Inserted(c, capacity, key, entry).entries
    ensures Inserted(c, capacity, key, entry).entries[key] == entry
  {
    InsertShape(c, capacity, key, entry);
    var p := Put(c, key, entry);
    SizeOfElements(p.recency);
    assert p.recency[|p.recency| - 1] == key;
  }

  lemma GetWellFormed<K, V>(c: Lru<K, V>, key: K, now: nat, capacity: nat)
    requires WellFormed(c, capacity)
    ensures WellFormed(Touched(c, key, now), capacity)
  {
    if key in c.entries && c.entries[key].Expired(now) {
      DropIsDropAll(c, key);
      DropAllCoherent(c, {key});
    } else {
      AppendKey(c.recency, key);
    }
  }

  // ---------------------------------------------------------------- traces

  /** One public call. The predicate of `DeleteWhere` is a function: it may not change while it runs. */
  datatype Call<!K, !V> =
    | Store(key: K, value: V, ttl: nat)
    | Fetch(key: K)
    | Delete(key: K)
    | DeleteWhere(accept: (K, V) -> bool)
    | Count
    | Clear

  datatype Timed<!K, !V> = Timed(now: nat, call: Call<K, V>)

  datatype Reply<V> = Done | Value(value: Option<V>) | Number(count: nat)

  function Apply<K, V>(c: Lru<K, V>, capacity: nat, t: Timed<K, V>): Lru<K, V> {
    if t.call.Store? then Inserted(c, capacity, t.call.key, Entry(t.call.value, t.now + t.call.ttl))
    else if t.call.Fetch? then Touched(c, t.call.key, t.now)
    else if t.call.Delete? then Drop(c, t.call.key)
    else if t.call.DeleteWhere? then DropAll(c, Matching(c, t.call.accept))
    else if t.call.Count? then DropAll(c, ExpiredKeys(c, t.now))
    else Lru(map[], [])
  }

  function ReplyTo<K, V>(c: Lru<K, V>, t: Timed<K, V>): Reply<V> {
    if t.call.Fetch? then Value(Found(c, t.call.key, t.now))
    else if t.call.Delete? then Value(Stored(c, t.call.key))
    else if t.call.DeleteWhere? then Number(MatchCount(c, t.call.accept))
    else if t.call.Count? then Number(LiveCount(c, t.now))
    else Done
  }

  function Run<K, V>(capacity: nat, trace: seq<Timed<K, V>>): Lru<K, V> {
    if trace == [] then Lru(map[], [])
    else Apply(Run(capacity, trace[..|trace| - 1]), capacity, trace[|trace| - 1])
  }

  lemma ApplyWellFormed<K, V>(c: Lru<K, V>, capacity: nat, t: Timed<K, V>, c': Lru<K, V>)
    requires 0 < capacity && WellFormed(c, capacity)
    requires c' == Apply(c, capacity, t)
    ensures WellFormed(c', capacity)
  {
    if t.call.Store? {
      InsertWellFormed(c, capacity, t.call.key, Entry(t.call.value, t.now + t.call.ttl));
    } else if t.call.Fetch? {
      GetWellFormed(c, t.call.key, t.now, capacity);
    } else if t.call.Delete? {
      DropWellFormed(c, t.call.key, capacity);
    } else if t.call.DeleteWhere? {
      DropAllWellFormed(c, Matching(c, t.call.accept), capacity);
    } else if t.call.Count? {
      DropAllWellFormed(c, ExpiredKeys(c, t.now), capacity);
    }
  }

  lemma {:induction false} RunWellFormed<K, V>(capacity: nat, trace: seq<Timed<K, V>>)
    requires 0 < capacity
    ensures WellFormed(Run(capacity, trace), capacity)
  {
    if trace != [] {
      RunWellFormed(capacity, trace[..|trace| - 1]);
      ApplyWellFormed(Run(capacity, trace[..|trace| - 1]), capacity, trace[|trace| - 1], Run(capacity, trace));
    }
  }

  // ---------------------------------------------------------------- LRU inclusion

  /** Every entry of `m` is also the entry of `p` for its key. */
  ghost predicate Below<K, V>(m: map<K, Entry<V>>, p: map<K, Entry<V>>) {
    forall k :: k in m ==> k in p && p[k] == m[k]
  }

  /** The small cache is the large one restricted to fewer keys, in the same recency order. */
  ghost predicate Within<K, V>(s: Lru<K, V>, l: Lru<K, V>) {
    && Below(s.entries, l.entries)
    && s.recency == Restrict(l.recency, s.entries.Keys)
  }

  /** Inclusion survives each call because the large cache never holds more extra keys than extra room. */
  ghost predicate Included<K, V>(s: Lru<K, V>, small: nat, l: Lru<K, V>, large: nat) {
    && WellFormed(s, small) && WellFormed(l, large)
    && Within(s, l)
    && |l.entries| - |s.entries| <= large - small
  }

  lemma DropBoth<K, V>(s: Lru<K, V>, l: Lru<K, V>, a: set<K>, b: set<K>)
    requires Coherent(s) && Coherent(l) && Within(s, l)
    requires b * s.entries.Keys <= a
    ensures Within(DropAll(s, a), DropAll(l, b))
  {
    var ks, kl := s.entries.Keys - a, l.entries.Keys - b;
    assert (s.entries - a).Keys == ks && (l.entries - b).Keys == kl;
    RestrictTwice(l.recency, kl, ks);
    RestrictTwice(l.recency, s.entries.Keys, ks);
    assert kl * ks == ks == s.entries.Keys * ks;
  }

  lemma PutBoth<K, V>(s: Lru<K, V>, l: Lru<K, V>, key: K, entry: Entry<V>)
    requires Coherent(s) && Coherent(l) && Within(s, l)
    ensures Within(Put(s, key, entry), Put(l, key, entry))
  {
    var ks := s.entries.Keys;
    RestrictAppend(Without(l.recency, key), key, ks + {key});
    WithoutIsRestrict(l.recency, key, ks + {key});
    WithoutAsRestrict(s.recency, key);
    RestrictTwice(l.recency, ks, ks - {key});
    assert ks * (ks - {key}) == ks - {key} == ks + {key} - {key};
    assert Put(s, key, entry).entries.Keys == ks + {key};
  }

  /** A large cache that is over its capacity holds a small one that is over its own. */
  lemma ExtraKeys<K, V>(s: Lru<K, V>, l: Lru<K, V>)
    requires s.entries.Keys <= l.entries.Keys
    ensures |l.entries.Keys - s.entries.Keys| == |l.entries| - |s.entries|
  {
    assert l.entries.Keys == s.entries.Keys + (l.entries.Keys - s.entries.Keys);
  }

  lemma InsertIncluded<K, V>(s: Lru<K, V>, small: nat, l: Lru<K, V>, large: nat, key: K, entry: Entry<V>,
    s': Lru<K, V>, l': Lru<K, V>)
    requires 0 < small <= large && Included(s, small, l, large)
    requires s' == Inserted(s, small, key, entry) && l' == Inserted(l, large, key, entry)
    ensures Included(s', small, l', large)
  {
    InsertShape(s, small, key, entry);
    InsertShape(l, large, key, entry);
    InsertWellFormed(s, small, key, entry);
    InsertWellFormed(l, large, key, entry);
    PutCoherent(s, key, entry);
    PutCoherent(l, key, entry);
    PutBoth(s, l, key, entry);
    var ps, pl := Put(s, key, entry), Put(l, key, entry);
    ExtraKeys(s, l);
    ExtraKeys(ps, pl);
    var a := if |ps.entries| <= small then {} else {ps.recency[0]};
    var b := if |pl.entries| <= large then {} else {pl.recency[0]};
    KeepAll(ps);
    KeepAll(pl);
    assert s' == DropAll(ps, a) && l' == DropAll(pl, b);
    if b != {} {
      SizeOfElements(pl.recency);
      assert |ps.entries| > small;
      var y := pl.recency[0];
      if y in ps.entries {
        assert ps.recency[0] == y;
      }
      assert b * ps.entries.Keys <= a;
    }
    DropBoth(ps, pl, a, b);
    ExtraKeys(s', l');
    if a != {} {
      SizeOfElements(ps.recency);
      assert ps.recency[0] in Elements(ps.recency);
      assert s'.entries.Keys == ps.entries.Keys - a;
    }
  }

  lemma KeepAll<K, V>(c: Lru<K, V>)
    requires Coherent(c)
    ensures DropAll(c, {}) == c
  {
    RestrictAll(c.recency, c.entries.Keys - {});
    assert c.entries - {} == c.entries;
  }

  lemma DropIncluded<K, V>(s: Lru<K, V>, small: nat, l: Lru<K, V>, large: nat, a: set<K>, b: set<K>)
    requires Included(s, small, l, large)
    requires a * s.entries.Keys == b * s.entries.Keys
    ensures Included(DropAll(s, a), small, DropAll(l, b), large)
  {
    DropAllCoherent(s, a);
    DropAllCoherent(l, b);
    DropBoth(s, l, a, b);
    var extra, extra' := l.entries.Keys - s.entries.Keys, DropAll(l, b).entries.Keys - DropAll(s, a).entries.Keys;
    forall k | k in extra' ensures k in extra {
      assert k in s.entries ==> (k in a * s.entries.Keys <==> k in b * s.entries.Keys);
    }
    SubsetSize(extra', extra);
    ExtraKeys(s, l);
    ExtraKeys(DropAll(s, a), DropAll(l, b));
  }

  lemma TouchIncluded<K, V>(s: Lru<K, V>, l: Lru<K, V>, key: K)
    requires Coherent(s) && Coherent(l) && Within(s, l) && key in l.entries
    ensures Within(if key in s.entries then Lru(s.entries, Without(s.recency, key) + [key]) else s,
                   Lru(l.entries, Without(l.recency, key) + [key]))
  {
    if key in s.entries {
      PutBoth(s, l, key, s.entries[key]);
      assert s.entries[key := s.entries[key]] == s.entries;
      assert l.entries[key := l.entries[key]] == l.entries;
    } else {
      RestrictAppend(Without(l.recency, key), key, s.entries.Keys);
      WithoutIsRestrict(l.recency, key, s.entries.Keys);
      assert s.entries.Keys - {key} == s.entries.Keys;
    }
  }

  lemma GetIncluded<K, V>(s: Lru<K, V>, small: nat, l: Lru<K, V>, large: nat, key: K, now: nat)
    requires Included(s, small, l, large)
    ensures Included(Touched(s, key, now), small, Touched(l, key, now), large)
  {
    GetWellFormed(s, key, now, small);
    GetWellFormed(l, key, now, large);
    if key in l.entries {
      if l.entries[key].Expired(now) {
        DropIsDropAll(l, key);
        DropIncluded(s, small, l, large, {key}, {key});
        if key in s.entries {
          DropIsDropAll(s, key);
        } else {
          DropAllAbsent(s, {key});
        }
      } else {
        TouchIncluded(s, l, key);
      }
    }
  }

  lemma DropAllAbsent<K, V>(c: Lru<K, V>, keys: set<K>)
    requires Coherent(c) && keys !! c.entries.Keys
    ensures DropAll(c, keys) == c
  {
    assert c.entries - keys == c.entries;
    RestrictAll(c.recency, c.entries.Keys - keys);
  }

  lemma EmptyIncluded<K, V>(small: nat, large: nat)
    requires small <= large
    ensures Included<K, V>(Lru(map[], []), small, Lru(map[], []), large)
  {
  }

  lemma SelectedAlike<K, V>(s: Lru<K, V>, l: Lru<K, V>, accept: (K, V) -> bool)
    requires Within(s, l)
    ensures Matching(s, accept) * s.entries.Keys == Matching(l, accept) * s.entries.Keys
    ensures Matching(s, accept) <= Matching(l, accept)
  {
  }

  lemma ExpiredAlike<K, V>(s: Lru<K, V>, l: Lru<K, V>, now: nat)
    requires Within(s, l)
    ensures ExpiredKeys(s, now) * s.entries.Keys == ExpiredKeys(l, now) * s.entries.Keys
  {
  }

  lemma FetchIncluded<K, V>(s: Lru<K, V>, small: nat, l: Lru<K, V>, large: nat, t: Timed<K, V>,
    s': Lru<K, V>, l': Lru<K, V>)
    requires t.call.Fetch? && 0 < small <= large && Included(s, small, l, large)
    requires s' == Apply(s, small, t) && l' == Apply(l, large, t)
    ensures Included(s', small, l', large)
  {
    GetIncluded(s, small, l, large, t.call.key, t.now);
  }

  lemma DeleteIncluded<K, V>(s: Lru<K, V>, small: nat, l: Lru<K, V>, large: nat, t: Timed<K, V>,
    s': Lru<K, V>, l': Lru<K, V>)
    requires t.call.Delete? && 0 < small <= large && Included(s, small, l, large)
    requires s' == Apply(s, small, t) && l' == Apply(l, large, t)
    ensures Included(s', small, l', large)
  {
    DropIsDropAll(s, t.call.key);
    DropIsDropAll(l, t.call.key);
    DropIncluded(s, small, l, large, {t.call.key}, {t.call.key});
  }

  lemma DeleteWhereIncluded<K, V>(s: Lru<K, V>, small: nat, l: Lru<K, V>, large: nat, t: Timed<K, V>,
    s': Lru<K, V>, l': Lru<K, V>)
    requires t.call.DeleteWhere? && 0 < small <= large && Included(s, small, l, large)
    requires s' == Apply(s, small, t) && l' == Apply(l, large, t)
    ensures Included(s', small, l', large)
  {
    SelectedAlike(s, l, t.call.accept);
    DropIncluded(s, small, l, large, Matching(s, t.call.accept), Matching(l, t.call.accept));
  }

  lemma CountIncluded<K, V>(s: Lru<K, V>, small: nat, l: Lru<K, V>, large: nat, now: nat,
    s': Lru<K, V>, l': Lru<K, V>)
    requires Included(s, small, l, large)
    requires s' == DropAll(s, ExpiredKeys(s, now)) && l' == DropAll(l, ExpiredKeys(l, now))
    ensures Included(s', small, l', large)
  {
    ExpiredAlike(s, l, now);
    DropIncluded(s, small, l, large, ExpiredKeys(s, now), ExpiredKeys(l, now));
  }

  lemma ApplyIncluded<K, V>(s: Lru<K, V>, small: nat, l: Lru<K, V>, large: nat, t: Timed<K, V>,
    s': Lru<K, V>, l': Lru<K, V>)
    requires 0 < small <= large && Included(s, small, l, large)
    requires s' == Apply(s, small, t) && l' == Apply(l, large, t)
    ensures Included(s', small, l', large)
  {
    if t.call.Store? {
      InsertIncluded(s, small, l, large, t.call.key, Entry(t.call.value, t.now + t.call.ttl), s', l');
    } else if t.call.Fetch? {
      FetchIncluded(s, small, l, large, t, s', l');
    } else if t.call.Delete? {
      DeleteIncluded(s, small, l, large, t, s', l');
    } else if t.call.DeleteWhere? {
      DeleteWhereIncluded(s, small, l, large, t, s', l');
    } else if t.call.Count? {
      CountIncluded(s, small, l, large, t.now, s', l');
    } else {
      EmptyIncluded<K, V>(small, large);
    }
  }

  /** A reply of the smaller cache is confirmed by the larger: same hits, no larger counts. */
  predicate Confirms<V(==)>(larger: Reply<V>, smaller: Reply<V>) {
    && (smaller.Done? ==> larger.Done?)
    && (smaller.Value? ==> larger.Value? && (smaller.value.Some? ==> larger.value == smaller.value))
    && (smaller.Number? ==> larger.Number? && smaller.count <= larger.count)
  }

  lemma MatchingConfirmed<K, V>(s: Lru<K, V>, l: Lru<K, V>, accept: (K, V) -> bool)
    requires Within(s, l)
    ensures MatchCount(s, accept) <= MatchCount(l, accept)
  {
    SelectedAlike(s, l, accept);
    SubsetSize(Matching(s, accept), Matching(l, accept));
  }

  lemma CountConfirmed<K, V>(s: Lru<K, V>, l: Lru<K, V>, now: nat)
    requires Within(s, l)
    ensures LiveCount(s, now) <= LiveCount(l, now)
  {
    var s', l' := s.entries - ExpiredKeys(s, now), l.entries - ExpiredKeys(l, now);
    assert forall k :: k in s'.Keys ==> k in l'.Keys;
    SubsetSize(s'.Keys, l'.Keys);
  }

  lemma RepliesConfirmed<K, V>(s: Lru<K, V>, l: Lru<K, V>, next: Timed<K, V>, larger: Reply<V>, smaller: Reply<V>)
    requires Within(s, l)
    requires larger == ReplyTo(l, next) && smaller == ReplyTo(s, next)
    ensures Confirms(larger, smaller)
  {
    if next.call.DeleteWhere? {
      MatchingConfirmed(s, l, next.call.accept);
    } else if next.call.Count? {
      CountConfirmed(s, l, next.now);
    }
  }

  /**
   * LRU inclusion. After the same trace the smaller cache holds a subset of the larger one's
   * entries, in the same relative recency order, and the larger cache confirms its next reply.
   */
  lemma {:induction false} LruInclusion<K, V>(small: nat, large: nat, trace: seq<Timed<K, V>>, next: Timed<K, V>)
    requires 0 < small <= large
    ensures Included(Run(small, trace), small, Run(large, trace), large)
    ensures Confirms(ReplyTo(Run(large, trace), next), ReplyTo(Run(small, trace), next))
  {
    if trace == [] {
      EmptyIncluded<K, V>(small, large);
    } else {
      var last := |trace| - 1;
      LruInclusion(small, large, trace[..last], next);
      ApplyIncluded(Run(small, trace[..last]), small, Run(large, trace[..last]), large, trace[last],
                    Run(small, trace), Run(large, trace));
    }
    RepliesConfirmed(Run(small, trace), Run(large, trace), next,
                     ReplyTo(Run(large, trace), next), ReplyTo(Run(small, trace), next));
  }

  // ---------------------------------------------------------------- the plain map

  function PlainMatching<K, V>(m: map<K, Entry<V>>, accept: (K, V) -> bool): set<K> {
    set k | k in m && accept(k, m[k].value)
  }

  function PlainExpired<K, V>(m: map<K, Entry<V>>, now: nat): set<K> {
    set k | k in m && m[k].Expired(now)
  }

  /** What the calls would do to a map of expiring entries that never runs out of room. */
  function PlainApply<K, V>(m: map<K, Entry<V>>, t: Timed<K, V>): map<K, Entry<V>> {
    if t.call.Store? then m[t.call.key := Entry(t.call.value, t.now + t.call.ttl)]
    else if t.call.Fetch? then
      if t.call.key in m && m[t.call.key].Expired(t.now) then m - {t.call.key} else m
    else if t.call.Delete? then m - {t.call.key}
    else if t.call.DeleteWhere? then m - PlainMatching(m, t.call.accept)
    else if t.call.Count? then m - PlainExpired(m, t.now)
    else map[]
  }

  function PlainRun<K, V>(trace: seq<Timed<K, V>>): map<K, Entry<V>> {
    if trace == [] then map[]
    else PlainApply(PlainRun(trace[..|trace| - 1]), trace[|trace| - 1])
  }

  /** The cache holds no entry that the map does not, and the very same entries when `exact`. */
  ghost predicate Mirrors<K, V>(c: Lru<K, V>, m: map<K, Entry<V>>, exact: bool) {
    Below(c.entries, m) && (exact ==> c.entries == m)
  }

  lemma InsertMirrors<K, V>(c: Lru<K, V>, capacity: nat, key: K, entry: Entry<V>, m: map<K, Entry<V>>, exact: bool,
    c': Lru<K, V>, m': map<K, Entry<V>>)
    requires 0 < capacity && WellFormed(c, capacity) && Mirrors(c, m, exact)
    requires c' == Inserted(c, capacity, key, entry) && m' == m[key := entry]
    ensures Mirrors(c', m', exact && |m'| <= capacity)
  {
    InsertShape(c, capacity, key, entry);
    var p := Put(c, key, entry);
    assert Mirrors(p, m', exact);
  }

  lemma DropMirrors<K, V>(c: Lru<K, V>, m: map<K, Entry<V>>, a: set<K>, b: set<K>, exact: bool,
    c': Lru<K, V>, m': map<K, Entry<V>>)
    requires Mirrors(c, m, exact)
    requires forall k :: k in c.entries ==> (k in a <==> k in b)
    requires c' == DropAll(c, a) && m' == m - b
    ensures Mirrors(c', m', exact)
  {
  }

  lemma MatchingMirrors<K, V>(c: Lru<K, V>, accept: (K, V) -> bool, m: map<K, Entry<V>>, exact: bool,
    c': Lru<K, V>, m': map<K, Entry<V>>)
    requires Mirrors(c, m, exact)
    requires c' == DropAll(c, Matching(c, accept)) && m' == m - PlainMatching(m, accept)
    ensures Mirrors(c', m', exact)
  {
    DropMirrors(c, m, Matching(c, accept), PlainMatching(m, accept), exact, c', m');
  }

  lemma ExpiredMirrors<K, V>(c: Lru<K, V>, now: nat, m: map<K, Entry<V>>, exact: bool,
    c': Lru<K, V>, m': map<K, Entry<V>>)
    requires Mirrors(c, m, exact)
    requires c' == DropAll(c, ExpiredKeys(c, now)) && m' == m - PlainExpired(m, now)
    ensures Mirrors(c', m', exact)
  {
    DropMirrors(c, m, ExpiredKeys(c, now), PlainExpired(m, now), exact, c', m');
  }

  lemma FetchMirrors<K, V>(c: Lru<K, V>, key: K, now: nat, m: map<K, Entry<V>>, exact: bool,
    c': Lru<K, V>, m': map<K, Entry<V>>)
    requires Mirrors(c, m, exact)
    requires c' == Touched(c, key, now)
    requires m' == if key in m && m[key].Expired(now) then m - {key} else m
    ensures Mirrors(c', m', exact)
  {
  }

  lemma ApplyMirrors<K, V>(c: Lru<K, V>, capacity: nat, t: Timed<K, V>, m: map<K, Entry<V>>, exact: bool,
    c': Lru<K, V>, m': map<K, Entry<V>>)
    requires 0 < capacity && WellFormed(c, capacity) && Mirrors(c, m, exact)
    requires c' == Apply(c, capacity, t) && m' == PlainApply(m, t)
    ensures Mirrors(c', m', exact && |m'| <= capacity)
  {
    if t.call.Store? {
      InsertMirrors(c, capacity, t.call.key, Entry(t.call.value, t.now + t.call.ttl), m, exact, c', m');
    } else if t.call.Fetch? {
      FetchMirrors(c, t.call.key, t.now, m, exact, c', m');
    } else if t.call.Delete? {
      DropIsDropAll(c, t.call.key);
      DropMirrors(c, m, {t.call.key}, {t.call.key}, exact, c', m');
    } else if t.call.DeleteWhere? {
      MatchingMirrors(c, t.call.accept, m, exact, c', m');
    } else if t.call.Count? {
      ExpiredMirrors(c, t.now, m, exact, c', m');
    }
  }

  /**
   * Every entry of the bounded cache is the plain map's entry for that key, and as long as the plain
   * map has never held more than `capacity` keys the two hold exactly the same entries.
   */
  lemma {:induction false} CacheAgainstPlainMap<K, V>(capacity: nat, trace: seq<Timed<K, V>>)
    requires 0 < capacity
    ensures Mirrors(Run(capacity, trace), PlainRun(trace),
                    forall n | 0 <= n <= |trace| :: |PlainRun(trace[..n])| <= capacity)
  {
    if trace != [] {
      var last := |trace| - 1;
      var before := trace[..last];
      CacheAgainstPlainMap(capacity, before);
      RunWellFormed(capacity, before);
      var exact := forall n | 0 <= n <= last :: |PlainRun(before[..n])| <= capacity;
      ApplyMirrors(Run(capacity, before), capacity, trace[last], PlainRun(before), exact,
                   Run(capacity, trace), PlainRun(trace));
      if forall n | 0 <= n <= |trace| :: |PlainRun(trace[..n])| <= capacity {
        assert forall n | 0 <= n <= last :: before[..n] == trace[..n];
        assert trace[..|trace|] == trace;
      }
    }
  }

  // ---------------------------------------------------------------- the cache itself

  lemma DropAllStep<K, V>(c: Lru<K, V>, removed: set<K>, key: K)
    requires Coherent(c)
    ensures Coherent(DropAll(c, removed))
    ensures Drop(DropAll(c, removed), key) == DropAll(c, removed + {key})
  {
    DropAllCoherent(c, removed);
    MinusTwice(c.entries, removed, key);
    var d := DropAll(c, removed);
    DropIsDropAll(d, key);
    RestrictStep(c.recency, c.entries.Keys, d.entries.Keys, removed, key);
  }

  lemma MinusTwice<K, V>(m: map<K, V>, removed: set<K>, key: K)
    ensures m - removed - {key} == m - (removed + {key})
    ensures (m - removed).Keys == m.Keys - removed
  {
  }

  lemma RestrictStep<T>(q: seq<T>, keys: set<T>, left: set<T>, removed: set<T>, x: T)
    requires left == keys - removed
    ensures Restrict(Restrict(q, keys - removed), left - {x}) == Restrict(q, keys - (removed + {x}))
  {
    RestrictTwice(q, keys - removed, left - {x});
    assert (keys - removed) * (left - {x}) == keys - (removed + {x});
  }

  /** How many entries an insert has to push out. */
  function Overflow<K, V>(put: Lru<K, V>, capacity: nat): nat {
    if |put.entries| > capacity then 1 else 0
  }

  /** How many expired entries a lookup finds. */
  function Lapsed<K, V>(c: Lru<K, V>, key: K, now: nat): nat {
    if key in c.entries && c.entries[key].Expired(now) then 1 else 0
  }

  lemma {:induction false} WithoutAt<K>(queue: seq<K>, index: nat, key: K)
    requires index < |queue| && queue[index] == key && key !in queue[..index]
    ensures Without(queue, key) == queue[..index] + queue[index + 1..]
  {
    if index != 0 {
      assert queue[0] == queue[..index][0];
      assert queue[1..][..index - 1] == queue[..index][1..];
      WithoutAt(queue[1..], index - 1, key);
      assert queue[..index] == [queue[0]] + queue[1..][..index - 1];
    }
  }

  /** Takes the first occurrence of `key` out of the queue, scanning from the least recent end. */
  method RemoveFromRecency<K(==)>(queue: seq<K>, key: K) returns (rest: seq<K>)
    ensures rest == Without(queue, key)
  {
    var index := 0;
    while index < |queue| && queue[index] != key
      invariant index <= |queue| && key !in queue[..index]
    {
      index := index + 1;
    }
    if index < |queue| {
      WithoutAt(queue, index, key);
      rest := queue[..index] + queue[index + 1..];
    } else {
      WithoutAbsent(queue, key);
      rest := queue;
    }
  }

  class MemoryCache<K(==), V> {
    const capacity: nat
    var entries: map<K, Entry<V>>
    var recency: seq<K>
    var hits: nat
    var misses: nat
    var insertions: nat
    var evictions: nat

    ghost function State(): Lru<K, V>
      reads this
    {
      Lru(entries, recency)
    }

    ghost predicate Valid()
      reads this
    {
      0 < capacity && WellFormed(State(), capacity)
    }

    constructor (capacity: nat)
      requires 0 < capacity
      ensures Valid() && State() == Lru(map[], []) && this.capacity == capacity
      ensures hits == misses == insertions == evictions == 0
    {
      this.capacity := capacity;
      entries, recency := map[], [];
      hits, misses, insertions, evictions := 0, 0, 0, 0;
    }

    method Insert(key: K, value: V, ttl: nat, now: nat)
      requires Valid() && 0 < ttl
      modifies this
      ensures Valid()
      ensures State() == Inserted(old(State()), capacity, key, Entry(value, now + ttl))
      ensures insertions == old(insertions) + 1 && hits == old(hits) && misses == old(misses)
      ensures evictions == old(evictions) + Overflow(Put(old(State()), key, Entry(value, now + ttl)), capacity)
    {
      ghost var put := Put(State(), key, Entry(value, now + ttl));
      InsertWellFormed(State(), capacity, key, Entry(value, now + ttl));
      PutCoherent(State(), key, Entry(value, now + ttl));
      Touch(key);
      entries := entries[key := Entry(value, now + ttl)];
      insertions := insertions + 1;
      assert State() == put;
      while |entries| > capacity
        invariant State() == put || (State() == Evict(put, capacity) && evictions == old(evictions) + 1)
        invariant State() == put ==> evictions == old(evictions)
        invariant |entries| <= |put.entries| <= capacity + 1
        modifies `entries, `recency, `evictions
        decreases |recency|
      {
        if recency == [] {
          break;
        }
        var oldest := recency[0];
        EvictOldest(put, capacity);
        recency := recency[1..];
        if oldest in entries {
          entries := entries - {oldest};
          evictions := evictions + 1;
        }
      }
    }

    /** Removes one key from the map and from the queue. */
    method Forget(key: K)
      modifies `entries, `recency
      ensures State() == Drop(old(State()), key)
    {
      entries := entries - {key};
      recency := RemoveFromRecency(recency, key);
    }

    /** Moves a key to the most recent end of the queue. */
    method Touch(key: K)
      modifies `recency
      ensures State() == Lru(old(entries), Without(old(recency), key) + [key])
    {
      recency := RemoveFromRecency(recency, key);
      recency := recency + [key];
    }

    /** The lookup itself; `Get` adds that the cache stays well-formed. */
    method Lookup(key: K, now: nat) returns (value: Option<V>)
      modifies this
      ensures State() == Touched(old(State()), key, now)
      ensures value == Found(old(State()), key, now)
      ensures hits == old(hits) + (if value.Some? then 1 else 0)
      ensures misses == old(misses) + (if value.Some? then 0 else 1)
      ensures insertions == old(insertions)
      ensures evictions == old(evictions) + Lapsed(old(State()), key, now)
    {
      if key !in entries {
        misses := misses + 1;
        value := None;
      } else if entries[key].Expired(now) {
        Forget(key);
        evictions := evictions + 1;
        misses := misses + 1;
        value := None;
      } else {
        value := Some(entries[key].value);
        Touch(key);
        hits := hits + 1;
      }
    }

    method Get(key: K, now: nat) returns (value: Option<V>)
      requires Valid()
      modifies this
      ensures Valid()
      ensures State() == Touched(old(State()), key, now)
      ensures value == Found(old(State()), key, now)
      ensures hits == old(hits) + (if value.Some? then 1 else 0)
      ensures misses == old(misses) + (if value.Some? then 0 else 1)
      ensures insertions == old(insertions)
      ensures evictions == old(evictions) + Lapsed(old(State()), key, now)
    {
      GetWellFormed(State(), key, now, capacity);
      value := Lookup(key, now);
    }

    method Remove(key: K) returns (value: Option<V>)
      requires Valid()
      modifies this
      ensures Valid()
      ensures State() == Drop(old(State()), key)
      ensures value == Stored(old(State()), key)
      ensures hits == old(hits) && misses == old(misses)
      ensures insertions == old(insertions) && evictions == old(evictions)
    {
      DropWellFormed(State(), key, capacity);
      recency := RemoveFromRecency(recency, key);
      value := if key in entries then Some(entries[key].value) else None;
      entries := entries - {key};
    }

    /** Removes the given keys one at a time, in whatever order the map yields them. */
    method RemoveKeys(keys: set<K>)
      requires Coherent(State())
      modifies `entries, `recency
      ensures State() == DropAll(old(State()), keys)
    {
      var left := keys;
      ghost var c, done: set<K> := State(), {};
      assert State() == DropAll(c, done) by { KeepAll(c); }
      while left != {}
        invariant done + left == keys
        invariant State() == DropAll(c, done)
        decreases left
      {
        var key :| key in left;
        DropAllStep(c, done, key);
        Forget(key);
        left, done := left - {key}, done + {key};
      }
      assert done == keys;
    }

    method RemoveWhere(accept: (K, V) -> bool) returns (removed: nat)
      requires Valid()
      modifies this
      ensures Valid()
      ensures State() == DropAll(old(State()), Matching(old(State()), accept))
      ensures removed == MatchCount(old(State()), accept)
      ensures hits == old(hits) && misses == old(misses)
      ensures insertions == old(insertions) && evictions == old(evictions)
    {
      var keys := set k | k in entries && accept(k, entries[k].value);
      assert keys == Matching(State(), accept);
      DropAllWellFormed(State(), keys, capacity);
      RemoveKeys(keys);
      removed := |keys|;
    }

    method Clear()
      requires Valid()
      modifies this
      ensures Valid() && State() == Lru(map[], [])
      ensures hits == old(hits) && misses == old(misses)
      ensures insertions == old(insertions) && evictions == old(evictions)
    {
      entries, recency := map[], [];
    }

    /** The number of live entries; those that have expired by `now` are removed on the way. */
    method Len(now: nat) returns (count: nat)
      requires Valid()
      modifies this
      ensures Valid()
      ensures State() == DropAll(old(State()), ExpiredKeys(old(State()), now))
      ensures count == LiveCount(old(State()), now)
      ensures hits == old(hits) && misses == old(misses) && insertions == old(insertions)
      ensures evictions == old(evictions) + |ExpiredKeys(old(State()), now)|
    {
      DropAllWellFormed(State(), ExpiredKeys(State(), now), capacity);
      var expired := set k | k in entries && entries[k].Expired(now);
      evictions := evictions + |expired|;
      RemoveKeys(expired);
      count := |entries|;
    }
  }
}
