/**
 * What a call to `take` returns and when it fetches: results come from the caller's own flight or from
 * the cache, what is fetched is kept, and what is kept is found again.
 */
module Takes {
  import opened Wrappers
  import opened MemoryCaching
  import opened CacheLaws
  import opened ReadThrough
  import SF = SingleFlights

  // ---------------------------------------------------------------- the calls on the cache

  /** What an event asks of the cache. */
  function CallOf<K, V, E>(s: State<K, V, E>, e: Event<K, V, E>): seq<Timed<K, V>> {
    if e.Take? || e.Read? then [Timed(s.now, Fetch(e.key))]
    else if e.Check? && StageOf(s, e.task).Checking? then [Timed(s.now, Fetch(StageOf(s, e.task).key))]
    else if e.Keep? && StageOf(s, e.task).Holding? then
      [Timed(s.now, Store(StageOf(s, e.task).key, StageOf(s, e.task).value, e.ttl))]
    else if e.Remove? then [Timed(s.now, Delete(e.key))]
    else []
  }

  ghost function Calls<K, V, E>(capacity: nat, events: seq<Event<K, V, E>>): seq<Timed<K, V>> {
    if events == [] then []
    else
      var before := events[..|events| - 1];
      Calls(capacity, before) + CallOf(After(capacity, before), events[|events| - 1])
  }

  lemma CacheAfterEvent<K, V, E>(s: State<K, V, E>, capacity: nat, e: Event<K, V, E>, call: seq<Timed<K, V>>)
    requires call == CallOf(s, e)
    ensures |call| <= 1
    ensures Next(s, capacity, e).cache == if call == [] then s.cache else Apply(s.cache, capacity, call[0])
  {
  }

  lemma CacheStep<K, V, E>(s: State<K, V, E>, capacity: nat, trace: seq<Timed<K, V>>, e: Event<K, V, E>)
    requires s.cache == Run(capacity, trace)
    ensures Next(s, capacity, e).cache == Run(capacity, trace + CallOf(s, e))
  {
    var call := CallOf(s, e);
    CacheAfterEvent(s, capacity, e, call);
    if call == [] {
      assert trace + call == trace;
    } else {
      assert call == [call[0]];
      RunAppend(capacity, trace, call[0]);
    }
  }

  /** The cache is what these calls make of it, so all that is proved about caches holds of it. */
  lemma {:induction false} CacheIsItsTrace<K, V, E>(capacity: nat, events: seq<Event<K, V, E>>)
    ensures After(capacity, events).cache == Run(capacity, Calls(capacity, events))
  {
    if events != [] {
      var before := events[..|events| - 1];
      CacheIsItsTrace(capacity, before);
      CacheStep(After(capacity, before), capacity, Calls(capacity, before), events[|events| - 1]);
    }
  }

  lemma OneMore<K, V, E>(capacity: nat, events: seq<Event<K, V, E>>, e: Event<K, V, E>)
    requires Legal(capacity, events + [e])
    ensures Legal(capacity, events) && Enabled(After(capacity, events), e)
    ensures After(capacity, events + [e]) == Next(After(capacity, events), capacity, e)
    ensures Calls(capacity, events + [e]) == Calls(capacity, events) + CallOf(After(capacity, events), e)
  {
    assert (events + [e])[..|events|] == events;
  }

  // ---------------------------------------------------------------- where results come from

  /** What the fetch of a call came back with, if it has. */
  function LastFetch<K, V, E>(events: seq<Event<K, V, E>>, t: nat): Option<Fetched<V, E>> {
    if events == [] then None
    else
      var e := events[|events| - 1];
      if e.EndFetch? && e.task == t then Some(e.result) else LastFetch(events[..|events| - 1], t)
  }

  /** A look of this call at the cache found `value` under `key`: stored last under it, and not lapsed. */
  ghost predicate FoundBy<K, V, E>(capacity: nat, events: seq<Event<K, V, E>>, n: nat, t: nat, key: K, value: V) {
    && n < |events| && (events[n].Take? || events[n].Check?) && events[n].task == t
    && var s, trace := After(capacity, events[..n]), Calls(capacity, events[..n]);
      && (events[n].Take? ==> events[n].key == key)
      && (events[n].Check? ==> StageOf(s, t) == Checking(key))
      && LastStored(trace, key).Some? && LastStored(trace, key).value.0 == value && !Lapses(trace, key, s.now)
  }

  /** The call has stored what it fetched. */
  ghost predicate HasKept<K, V, E>(events: seq<Event<K, V, E>>, t: nat) {
    exists n :: 0 <= n < |events| && events[n].Keep? && events[n].task == t
  }

  /**
   * The result of a leading call is what its own fetch came back with, stored first if it is a value,
   * or what its second look found.
   */
  ghost predicate Origin<K, V, E>(capacity: nat, events: seq<Event<K, V, E>>, t: nat, key: K, r: Fetched<V, E>) {
    if LastFetch(events, t).Some? then r == LastFetch(events, t).value && (r.Ok? ==> HasKept(events, t))
    else r.Ok? && exists n {:trigger FoundBy(capacity, events, n, t, key, r.value)} ::
      FoundBy(capacity, events, n, t, key, r.value)
  }

  ghost predicate StageHasOrigin<K, V, E>(capacity: nat, events: seq<Event<K, V, E>>, t: nat) {
    var stage := StageOf(After(capacity, events), t);
    && (stage.Holding? ==> LastFetch(events, t) == Some(Ok(stage.value)))
    && (stage.Ready? ==> Origin(capacity, events, t, stage.key, stage.result))
    && (stage.Hit? ==> exists n {:trigger FoundBy(capacity, events, n, t, stage.key, stage.value)} ::
          FoundBy(capacity, events, n, t, stage.key, stage.value))
    && (Unfetched(stage) || t !in After(capacity, events).stages ==> LastFetch(events, t).None?)
  }

  predicate Unfetched<K, V, E>(stage: Stage<K, V, E>) {
    stage.Hit? || stage.Entering? || stage.Checking? || stage.Missed? || stage.Fetching?
  }

  /** A leader that has its result: it is sending it or has returned it. */
  predicate HasResult<K, R>(f: SF.State<K, R>, t: nat) {
    t in f.tasks && (f.tasks[t].Sending? || f.tasks[t].Led?)
  }

  ghost predicate ResultHasOrigin<K, V, E>(capacity: nat, events: seq<Event<K, V, E>>, t: nat) {
    var f := After(capacity, events).flights;
    HasResult(f, t) ==> Origin(capacity, events, t, f.tasks[t].key, f.tasks[t].result)
  }

  lemma FoundStays<K, V, E>(capacity: nat, events: seq<Event<K, V, E>>, e: Event<K, V, E>, n: nat, t: nat, key: K,
      value: V)
    requires FoundBy(capacity, events, n, t, key, value)
    ensures FoundBy(capacity, events + [e], n, t, key, value)
  {
    assert (events + [e])[..n] == events[..n];
  }

  lemma OriginStays<K, V, E>(capacity: nat, events: seq<Event<K, V, E>>, e: Event<K, V, E>, t: nat, key: K,
      r: Fetched<V, E>)
    requires Origin(capacity, events, t, key, r) && !(e.EndFetch? && e.task == t)
    ensures Origin(capacity, events + [e], t, key, r)
  {
    assert (events + [e])[..|events|] == events;
    if LastFetch(events, t).None? {
      var n :| FoundBy(capacity, events, n, t, key, r.value);
      FoundStays(capacity, events, e, n, t, key, r.value);
    } else if r.Ok? {
      KeptStays(events, e, t);
    }
  }

  lemma KeptStays<K, V, E>(events: seq<Event<K, V, E>>, e: Event<K, V, E>, t: nat)
    ensures HasKept(events, t) || (e.Keep? && e.task == t) ==> HasKept(events + [e], t)
  {
    var longer := events + [e];
    assert longer[|events|] == e;
    if HasKept(events, t) {
      var n :| 0 <= n < |events| && events[n].Keep? && events[n].task == t;
      assert longer[n] == events[n];
    }
  }

  /** A look that finds something finds what was last stored. */
  lemma LookFinds<K, V, E>(capacity: nat, events: seq<Event<K, V, E>>, e: Event<K, V, E>, key: K)
    requires 0 < capacity && Live(After(capacity, events).cache, key, After(capacity, events).now)
    requires (e.Take? && e.key == key) || (e.Check? && StageOf(After(capacity, events), e.task) == Checking(key))
    ensures FoundBy(capacity, events + [e], |events|, e.task, key, After(capacity, events).cache.entries[key].value)
  {
    CacheIsItsTrace(capacity, events);
    EntriesAreLastStored(capacity, Calls(capacity, events), key);
    assert (events + [e])[..|events|] == events;
  }

  lemma StageOfStepper<K, V, E>(capacity: nat, events: seq<Event<K, V, E>>, e: Event<K, V, E>, t: nat)
    requires 0 < capacity && Legal(capacity, events + [e]) && StageHasOrigin(capacity, events, t)
    requires (e.Take? || e.Check?) && e.task == t
    ensures StageHasOrigin(capacity, events + [e], t)
  {
    OneMore(capacity, events, e);
    assert (events + [e])[..|events|] == events;
    var s := After(capacity, events);
    var key := if e.Take? then e.key else StageOf(s, t).key;
    if Live(s.cache, key, s.now) {
      LookFinds(capacity, events, e, key);
    }
  }

  /** What else can change the stage of a call. */
  lemma StageStep<K, V, E>(s: State<K, V, E>, capacity: nat, e: Event<K, V, E>, t: nat, stage: Stage<K, V, E>,
    stage': Stage<K, V, E>)
    requires Enabled(s, e) && stage == StageOf(s, t) && stage' == StageOf(Next(s, capacity, e), t)
    requires !((e.Take? || e.Check?) && e.task == t)
    ensures stage'.Holding? && stage' != stage ==> e.EndFetch? && e.task == t && e.result == Ok(stage'.value)
    ensures stage'.Ready? && stage' != stage ==>
      e.task == t && ((e.EndFetch? && e.result == stage'.result && e.result.Failed?)
                      || (e.Keep? && stage.Holding? && stage'.result == Ok(stage.value)))
    ensures stage'.Hit? ==> stage' == stage
    ensures Unfetched(stage') ==> Unfetched(stage) && !(e.EndFetch? && e.task == t)
    ensures t !in Next(s, capacity, e).stages ==> t !in s.stages && !(e.EndFetch? && e.task == t)
  {
  }

  lemma StageOriginKept<K, V, E>(capacity: nat, events: seq<Event<K, V, E>>, e: Event<K, V, E>, t: nat)
    requires 0 < capacity && Legal(capacity, events + [e]) && StageHasOrigin(capacity, events, t)
    ensures StageHasOrigin(capacity, events + [e], t)
  {
    OneMore(capacity, events, e);
    assert (events + [e])[..|events|] == events;
    var stage, stage' := StageOf(After(capacity, events), t), StageOf(After(capacity, events + [e]), t);
    if (e.Take? || e.Check?) && e.task == t {
      StageOfStepper(capacity, events, e, t);
    } else {
      StageStep(After(capacity, events), capacity, e, t, stage, stage');
      KeptStays(events, e, t);
      if stage'.Ready? && stage' == stage && !(e.EndFetch? && e.task == t) {
        OriginStays(capacity, events, e, t, stage.key, stage.result);
      } else if stage'.Hit? {
        var n :| FoundBy(capacity, events, n, t, stage.key, stage.value);
        FoundStays(capacity, events, e, n, t, stage.key, stage.value);
      }
    }
  }

  /** A leader that has its result is past its stages. */
  lemma ResultIsPastStages<K, V, E>(s: State<K, V, E>, capacity: nat, t: nat)
    requires Inv(s, capacity) && HasResult(s.flights, t)
    ensures !Leads(StageOf(s, t)) && t in s.flights.tasks
  {
    assert StageOk(s, t);
  }

  /** The step by which a leader gets its result. */
  lemma FinishGivesResult<K, V, E>(s: State<K, V, E>, capacity: nat, t: nat, s': State<K, V, E>)
    requires Inv(s, capacity) && Enabled(s, Finish(t)) && s' == Next(s, capacity, Finish(t))
    ensures HasResult(s'.flights, t)
    ensures s'.flights.tasks[t].key == StageOf(s, t).key && s'.flights.tasks[t].result == StageOf(s, t).result
  {
    assert StageOk(s, t) && SF.TaskOk(s.flights, t);
  }

  /** A step of the flights gives a result only to a leader that finishes. */
  lemma FlightResult<K, R>(f: SF.State<K, R>, step: SF.Event<K, R>, t: nat)
    requires SF.Inv(f) && SF.Enabled(f, step) && HasResult(SF.Next(f, step), t) && !(step.Finish? && step.task == t)
    ensures HasResult(f, t)
    ensures SF.Next(f, step).tasks[t].key == f.tasks[t].key && SF.Next(f, step).tasks[t].result == f.tasks[t].result
  {
  }

  /** A leader gets its result from its stage when it finishes, and never another one. */
  lemma ResultBefore<K, V, E>(s: State<K, V, E>, capacity: nat, e: Event<K, V, E>, t: nat, s': State<K, V, E>)
    requires Inv(s, capacity) && Enabled(s, e) && s' == Next(s, capacity, e) && HasResult(s'.flights, t)
    requires !(e.Finish? && e.task == t)
    ensures HasResult(s.flights, t) && s'.flights.tasks[t].key == s.flights.tasks[t].key
    ensures s'.flights.tasks[t].result == s.flights.tasks[t].result
  {
    if e.Enter? {
      assert StageOk(s, e.task);
      FlightResult(s.flights, SF.Join(e.task, StageOf(s, e.task).key), t);
    } else if e.Finish? {
      assert StageOk(s, e.task);
      FlightResult(s.flights, SF.Finish(e.task, StageOf(s, e.task).result), t);
    } else if e.Flight? {
      FlightResult(s.flights, e.step, t);
    }
  }

  lemma ResultOriginKept<K, V, E>(capacity: nat, events: seq<Event<K, V, E>>, e: Event<K, V, E>, t: nat)
    requires 0 < capacity && Legal(capacity, events + [e])
    requires StageHasOrigin(capacity, events, t) && ResultHasOrigin(capacity, events, t)
    ensures ResultHasOrigin(capacity, events + [e], t)
  {
    OneMore(capacity, events, e);
    EveryInterleavingKeepsInv(capacity, events);
    var s, s' := After(capacity, events), After(capacity, events + [e]);
    if e.Finish? && e.task == t {
      FinishGivesResult(s, capacity, t, s');
      OriginStays(capacity, events, e, t, StageOf(s, t).key, StageOf(s, t).result);
    } else if HasResult(s'.flights, t) {
      ResultBefore(s, capacity, e, t, s');
      ResultIsPastStages(s, capacity, t);
      OriginStays(capacity, events, e, t, s.flights.tasks[t].key, s.flights.tasks[t].result);
    }
  }

  lemma {:induction false} EveryResultHasOrigin<K, V, E>(capacity: nat, events: seq<Event<K, V, E>>, t: nat)
    requires 0 < capacity && Legal(capacity, events)
    ensures StageHasOrigin(capacity, events, t) && ResultHasOrigin(capacity, events, t)
  {
    if events != [] {
      var before, e := events[..|events| - 1], events[|events| - 1];
      assert events == before + [e];
      OneMore(capacity, before, e);
      EveryResultHasOrigin(capacity, before, t);
      StageOriginKept(capacity, before, e, t);
      ResultOriginKept(capacity, before, e, t);
    }
  }

  /** What a leading call returns. */
  lemma LeaderReturnsItsOwn<K, V, E>(capacity: nat, events: seq<Event<K, V, E>>, t: nat)
    requires 0 < capacity && Legal(capacity, events) && HasResult(After(capacity, events).flights, t)
    ensures var role := After(capacity, events).flights.tasks[t];
      Origin(capacity, events, t, role.key, role.result)
  {
    EveryResultHasOrigin(capacity, events, t);
  }

  /** What a waiting call returns is the result of a leader of the same key, unless that leader was cancelled. */
  lemma WaiterReturnsItsLeaders<K, V, E>(capacity: nat, events: seq<Event<K, V, E>>, t: nat)
    requires 0 < capacity && Legal(capacity, events) && t in After(capacity, events).flights.tasks
    requires var role := After(capacity, events).flights.tasks[t]; role.Served? && role.outcome.Delivered?
    ensures var role := After(capacity, events).flights.tasks[t];
      Origin(capacity, events, role.leader, role.key, role.outcome.result)
  {
    EveryInterleavingKeepsInv(capacity, events);
    var f := After(capacity, events).flights;
    assert SF.TaskOk(f, t);
    EveryResultHasOrigin(capacity, events, f.tasks[t].leader);
  }

  /** What a call returns that found the key at once. */
  lemma HitReturnsTheLastStored<K, V, E>(capacity: nat, events: seq<Event<K, V, E>>, t: nat)
    requires 0 < capacity && Legal(capacity, events) && StageOf(After(capacity, events), t).Hit?
    ensures var hit := StageOf(After(capacity, events), t);
      exists n {:trigger FoundBy(capacity, events, n, t, hit.key, hit.value)} ::
        FoundBy(capacity, events, n, t, hit.key, hit.value)
  {
    EveryResultHasOrigin(capacity, events, t);
  }

  // ---------------------------------------------------------------- what is fetched is kept

  lemma KeepStores<K, V, E>(s: State<K, V, E>, capacity: nat, t: nat, ttl: nat, s': State<K, V, E>)
    requires 0 < capacity && 0 < ttl && WellFormed(s.cache, capacity) && StageOf(s, t).Holding?
    requires s' == Next(s, capacity, Keep(t, ttl))
    ensures s'.now == s.now && StageOf(s', t) == Ready(StageOf(s, t).key, Ok(StageOf(s, t).value))
    ensures StageOf(s, t).key in s'.cache.entries
    ensures s'.cache.entries[StageOf(s, t).key] == Entry(StageOf(s, t).value, s.now + ttl)
  {
    InsertKeepsNewest(s.cache, capacity, StageOf(s, t).key, Entry(StageOf(s, t).value, s.now + ttl));
  }

  /** Once the leader has stored it, the fetched value is live, until the lifetime it was given has passed. */
  lemma FetchedIsKept<K, V, E>(capacity: nat, events: seq<Event<K, V, E>>, t: nat, ttl: nat)
    requires 0 < capacity && Legal(capacity, events + [Keep(t, ttl)])
    ensures var s, s' := After(capacity, events), After(capacity, events + [Keep(t, ttl)]);
      && LastFetch(events, t).Some? && LastFetch(events, t).value.Ok?
      && StageOf(s, t).Holding? && StageOf(s', t) == Ready(StageOf(s, t).key, LastFetch(events, t).value)
      && Live(s'.cache, StageOf(s, t).key, s'.now)
      && s'.cache.entries[StageOf(s, t).key] == Entry(LastFetch(events, t).value.value, s.now + ttl)
  {
    OneMore(capacity, events, Keep(t, ttl));
    EveryResultHasOrigin(capacity, events, t);
    EveryInterleavingKeepsInv(capacity, events);
    KeepStores(After(capacity, events), capacity, t, ttl, After(capacity, events + [Keep(t, ttl)]));
  }

  /** A step that neither removes the key nor stores it again, and does not push it out to make room. */
  ghost predicate LeavesAlone<K, V, E>(capacity: nat, events: seq<Event<K, V, E>>, e: Event<K, V, E>, key: K) {
    var s := After(capacity, events);
    && !(e.Remove? && e.key == key)
    && (e.Keep? && StageOf(s, e.task).Holding? ==>
          var stored := StageOf(s, e.task).key;
          && stored != key
          && !(stored !in s.cache.entries && |s.cache.entries| == capacity
               && LeastRecentlyUsed(s.cache, Calls(capacity, events), key)))
  }

  ghost predicate AllLeaveAlone<K, V, E>(
    capacity: nat, events: seq<Event<K, V, E>>, more: seq<Event<K, V, E>>, key: K)
  {
    more == [] ||
    (AllLeaveAlone(capacity, events, more[..|more| - 1], key)
     && LeavesAlone(capacity, events + more[..|more| - 1], more[|more| - 1], key))
  }

  lemma StepLeavesAlone<K, V, E>(capacity: nat, events: seq<Event<K, V, E>>, e: Event<K, V, E>, key: K)
    requires 0 < capacity && Legal(capacity, events + [e]) && LeavesAlone(capacity, events, e, key)
    requires Live(After(capacity, events).cache, key, After(capacity, events).now)
    ensures var s, s' := After(capacity, events), After(capacity, events + [e]);
      key in s'.cache.entries && s'.cache.entries[key] == s.cache.entries[key] && s.now <= s'.now
  {
    OneMore(capacity, events, e);
    CacheIsItsTrace(capacity, events);
    CacheIsItsTrace(capacity, events + [e]);
    var s, trace := After(capacity, events), Calls(capacity, events);
    EntriesAreLastStored(capacity, trace, key);
    RunWellFormed(capacity, trace);
    if CallOf(s, e) != [] {
      var t := CallOf(s, e)[0];
      assert CallOf(s, e) == [t];
      RunAppend(capacity, trace, t);
      if t.call.Store? {
        EvictedIff(capacity, trace, t, key);
      } else {
        KeptIff(capacity, trace, t, key);
      }
      EntryBefore(s.cache, capacity, t, After(capacity, events + [e]).cache, key);
    } else {
      assert trace + CallOf(s, e) == trace;
    }
  }

  /**
   * And it stays live with that value until its lifetime has passed, unless it is removed, stored
   * again, or pushed out as the key used longest ago.
   */
  lemma {:induction false} KeptStaysLive<K, V, E>(
    capacity: nat, events: seq<Event<K, V, E>>, more: seq<Event<K, V, E>>, key: K)
    requires 0 < capacity && Legal(capacity, events + more) && AllLeaveAlone(capacity, events, more, key)
    requires key in After(capacity, events).cache.entries
    requires After(capacity, events + more).now < After(capacity, events).cache.entries[key].expiresAt
    ensures var s, s' := After(capacity, events), After(capacity, events + more);
      && s.now <= s'.now && Live(s'.cache, key, s'.now)
      && s'.cache.entries[key] == s.cache.entries[key]
    decreases |more|
  {
    if more == [] {
      assert events + more == events;
    } else {
      var front, e := more[..|more| - 1], more[|more| - 1];
      assert events + more == events + front + [e];
      OneMore(capacity, events + front, e);
      ClockKept(After(capacity, events + front), capacity, e);
      KeptStaysLive(capacity, events, front, key);
      StepLeavesAlone(capacity, events + front, e, key);
    }
  }

  lemma ClockKept<K, V, E>(s: State<K, V, E>, capacity: nat, e: Event<K, V, E>)
    ensures s.now <= Next(s, capacity, e).now
  {
  }

  // ---------------------------------------------------------------- when nothing is fetched

  lemma HitStays<K, V, E>(s: State<K, V, E>, capacity: nat, e: Event<K, V, E>, t: nat)
    requires Inv(s, capacity) && Enabled(s, e) && StageOf(s, t).Hit?
    ensures StageOf(Next(s, capacity, e), t) == StageOf(s, t)
  {
    assert StageOk(s, t);
  }

  lemma HitNeverLeads<K, V, E>(capacity: nat, events: seq<Event<K, V, E>>, t: nat)
    requires 0 < capacity && Legal(capacity, events) && StageOf(After(capacity, events), t).Hit?
    ensures t !in After(capacity, events).flights.tasks && LastFetch(events, t).None?
  {
    EveryInterleavingKeepsInv(capacity, events);
    assert StageOk(After(capacity, events), t);
    EveryResultHasOrigin(capacity, events, t);
  }

  /** A call that finds the key live returns what it found, and never leads a flight or fetches. */
  lemma {:induction false} HitNeverFetches<K, V, E>(
    capacity: nat, events: seq<Event<K, V, E>>, t: nat, key: K, more: seq<Event<K, V, E>>)
    requires 0 < capacity && Legal(capacity, events + [Take(t, key)] + more)
    requires Live(After(capacity, events).cache, key, After(capacity, events).now)
    ensures var s := After(capacity, events + [Take(t, key)] + more);
      && StageOf(s, t) == Hit(key, After(capacity, events).cache.entries[key].value)
      && t !in s.flights.tasks
    ensures LastFetch(events + [Take(t, key)] + more, t).None?
    decreases |more|
  {
    var taken := events + [Take(t, key)];
    if more == [] {
      assert taken + more == taken;
      OneMore(capacity, events, Take(t, key));
    } else {
      var front, e := more[..|more| - 1], more[|more| - 1];
      assert taken + more == taken + front + [e];
      OneMore(capacity, taken + front, e);
      HitNeverFetches(capacity, events, t, key, front);
      EveryInterleavingKeepsInv(capacity, taken + front);
      HitStays(After(capacity, taken + front), capacity, e, t);
    }
    HitNeverLeads(capacity, taken + more, t);
  }

  /** A call that finds nothing live goes on to join or lead a flight. */
  lemma MissGoesOn<K, V, E>(capacity: nat, events: seq<Event<K, V, E>>, t: nat, key: K)
    requires 0 < capacity && Legal(capacity, events + [Take(t, key)])
    requires !Live(After(capacity, events).cache, key, After(capacity, events).now)
    ensures StageOf(After(capacity, events + [Take(t, key)]), t) == Entering(key)
  {
    OneMore(capacity, events, Take(t, key));
  }

  /** A failed fetch leaves the cache as it was, and nothing is stored for it later. */
  lemma {:induction false} FailureStoresNothing<K, V, E>(
    capacity: nat, events: seq<Event<K, V, E>>, t: nat, n: nat)
    requires 0 < capacity && Legal(capacity, events) && n < |events|
    requires LastFetch(events, t).Some? && LastFetch(events, t).value.Failed?
    ensures !(events[n].Keep? && events[n].task == t)
    decreases |events|
  {
    var before, e := events[..|events| - 1], events[|events| - 1];
    assert events == before + [e];
    OneMore(capacity, before, e);
    EveryResultHasOrigin(capacity, before, t);
    if n < |before| {
      if e.EndFetch? && e.task == t {
        NothingKeptBefore(capacity, before, t, n);
      } else {
        FailureStoresNothing(capacity, before, t, n);
      }
    }
  }

  lemma {:induction false} NothingKeptBefore<K, V, E>(capacity: nat, events: seq<Event<K, V, E>>, t: nat, n: nat)
    requires 0 < capacity && Legal(capacity, events) && n < |events| && LastFetch(events, t).None?
    ensures !(events[n].Keep? && events[n].task == t)
    decreases |events|
  {
    var before, e := events[..|events| - 1], events[|events| - 1];
    assert events == before + [e];
    OneMore(capacity, before, e);
    EveryResultHasOrigin(capacity, before, t);
    if n < |before| {
      NothingKeptBefore(capacity, before, t, n);
    }
  }

  lemma EndOfFetchKeepsCache<K, V, E>(capacity: nat, events: seq<Event<K, V, E>>, t: nat, r: Fetched<V, E>)
    requires Legal(capacity, events + [EndFetch(t, r)])
    ensures var s, s' := After(capacity, events), After(capacity, events + [EndFetch(t, r)]);
      && s'.cache == s.cache
      && (r.Failed? ==> StageOf(s', t) == Ready(StageOf(s, t).key, r))
  {
    OneMore(capacity, events, EndFetch(t, r));
  }
}
