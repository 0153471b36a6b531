/**
 * `ReadThroughCache::take` of core/src/cache.rs: an LRU cache in front of single-flight loading.
 *
 * The machine runs the cache of `MemoryCaching` and the flights of `SingleFlights` side by side.
 * Calls to `take`, `get` and `remove`, the clock, and cancellation interleave freely.
 */
module ReadThrough {
  import opened Wrappers
  import opened MemoryCaching
  import SF = SingleFlights

  datatype Fetched<V, E> = Ok(value: V) | Failed(error: E)

  /** Where one call to `take` is. A follower and a finished leader are `Elsewhere`. */
  datatype Stage<K, V, E> =
    | Hit(key: K, value: V)                       // found in the cache at first look
    | Entering(key: K)                            // first look missed, about to join the flight
    | Checking(key: K)                            // leads the flight, second look still to come
    | Missed(key: K)                              // second look missed
    | Fetching(key: K)                            // the fetch is in progress
    | Holding(key: K, value: V)                   // fetched, not stored yet
    | Ready(key: K, result: Fetched<V, E>)        // the operation has its result
    | Elsewhere

  datatype State<K, V, E> = State(
    flights: SF.State<K, Fetched<V, E>>,
    cache: Lru<K, V>,
    now: nat,
    stages: map<nat, Stage<K, V, E>>)

  datatype Event<K, V, E> =
    | Take(task: nat, key: K)
    | Enter(task: nat)
    | Check(task: nat)
    | StartFetch(task: nat)
    | EndFetch(task: nat, result: Fetched<V, E>)
    | Keep(task: nat, ttl: nat)
    | Finish(task: nat)
    | Flight(step: SF.Event<K, Fetched<V, E>>)    // sends, returns, cancellations, waiters
    | Read(key: K)
    | Remove(key: K)
    | Tick(elapsed: nat)

  predicate Leads<K, V, E>(stage: Stage<K, V, E>) {
    stage.Checking? || stage.Missed? || stage.Fetching? || stage.Holding? || stage.Ready?
  }

  function StageOf<K, V, E>(s: State<K, V, E>, t: nat): Stage<K, V, E> {
    if t in s.stages then s.stages[t] else Elsewhere
  }

  ghost predicate Enabled<K, V, E>(s: State<K, V, E>, e: Event<K, V, E>) {
    if e.Take? then e.task !in s.stages
    else if e.Enter? then StageOf(s, e.task).Entering?
    else if e.Check? then StageOf(s, e.task).Checking?
    else if e.StartFetch? then StageOf(s, e.task).Missed?
    else if e.EndFetch? then StageOf(s, e.task).Fetching?
    else if e.Keep? then StageOf(s, e.task).Holding? && 0 < e.ttl
    else if e.Finish? then StageOf(s, e.task).Ready?
    else if e.Flight? then !e.step.Join? && !e.step.Finish? && SF.Enabled(s.flights, e.step)
    else true
  }

  function SetStage<K, V, E>(s: State<K, V, E>, t: nat, stage: Stage<K, V, E>): State<K, V, E> {
    s.(stages := s.stages[t := stage])
  }

  /** The first look decides. */
  function AfterLook<K, V, E>(key: K, found: Option<V>): Stage<K, V, E> {
    if found.Some? then Hit(key, found.value) else Entering(key)
  }

  function Next<K, V, E>(s: State<K, V, E>, capacity: nat, e: Event<K, V, E>): State<K, V, E> {
    if e.Take? then
      SetStage(s, e.task, AfterLook(e.key, Found(s.cache, e.key, s.now)))
        .(cache := Touched(s.cache, e.key, s.now))
    else if e.Enter? && StageOf(s, e.task).Entering? then
      var key := StageOf(s, e.task).key;
      SetStage(s, e.task, if key in s.flights.flights then Elsewhere else Checking(key))
        .(flights := SF.Next(s.flights, SF.Join(e.task, key)))
    else if e.Check? && StageOf(s, e.task).Checking? then
      var key := StageOf(s, e.task).key;
      SetStage(s, e.task, if Live(s.cache, key, s.now) then Ready(key, Ok(s.cache.entries[key].value)) else Missed(key))
        .(cache := Touched(s.cache, key, s.now))
    else if e.StartFetch? && StageOf(s, e.task).Missed? then
      SetStage(s, e.task, Fetching(StageOf(s, e.task).key))
    else if e.EndFetch? && StageOf(s, e.task).Fetching? then
      var key := StageOf(s, e.task).key;
      SetStage(s, e.task, if e.result.Ok? then Holding(key, e.result.value) else Ready(key, e.result))
    else if e.Keep? && StageOf(s, e.task).Holding? then
      var stage := StageOf(s, e.task);
      SetStage(s, e.task, Ready(stage.key, Ok(stage.value)))
        .(cache := Inserted(s.cache, capacity, stage.key, Entry(stage.value, s.now + e.ttl)))
    else if e.Finish? && StageOf(s, e.task).Ready? then
      SetStage(s, e.task, Elsewhere)
        .(flights := SF.Next(s.flights, SF.Finish(e.task, StageOf(s, e.task).result)))
    else if e.Flight? then
      (if e.step.Cancel? then SetStage(s, e.step.task, Elsewhere) else s)
        .(flights := SF.Next(s.flights, e.step))
    else if e.Read? then s.(cache := Touched(s.cache, e.key, s.now))
    else if e.Remove? then s.(cache := Drop(s.cache, e.key))
    else if e.Tick? then s.(now := s.now + e.elapsed)
    else s
  }

  function Start<K, V, E>(): State<K, V, E> {
    State(SF.Start(), Lru(map[], []), 0, map[])
  }

  function After<K, V, E>(capacity: nat, events: seq<Event<K, V, E>>): State<K, V, E> {
    if events == [] then Start()
    else Next(After(capacity, events[..|events| - 1]), capacity, events[|events| - 1])
  }

  ghost predicate Legal<K, V, E>(capacity: nat, events: seq<Event<K, V, E>>) {
    events == [] ||
    (Legal(capacity, events[..|events| - 1])
     && Enabled(After(capacity, events[..|events| - 1]), events[|events| - 1]))
  }

  // ---------------------------------------------------------------- invariant

  /** A task is past the join exactly when it leads a flight, and a leader past its miss has no live entry. */
  ghost predicate StageOk<K, V, E>(s: State<K, V, E>, t: nat) {
    var stage := StageOf(s, t);
    && (t in s.flights.tasks ==> t in s.stages && !stage.Entering? && !stage.Hit?)
    && (Leads(stage) <==> t in s.flights.tasks && s.flights.tasks[t].Running?)
    && (Leads(stage) ==> s.flights.tasks[t].key == stage.key)
    && (stage.Missed? || stage.Fetching? || stage.Holding? ==> !Live(s.cache, stage.key, s.now))
  }

  ghost predicate Inv<K, V, E>(s: State<K, V, E>, capacity: nat) {
    && SF.Inv(s.flights)
    && WellFormed(s.cache, capacity)
    && forall t {:trigger StageOk(s, t)} :: StageOk(s, t)
  }

  /** Two leaders of one key are the same task. */
  lemma LeadersDiffer<K, V, E>(s: State<K, V, E>, capacity: nat, t: nat, u: nat)
    requires Inv(s, capacity) && Leads(StageOf(s, t)) && Leads(StageOf(s, u))
    requires StageOf(s, t).key == StageOf(s, u).key
    ensures t == u
  {
    assert StageOk(s, t) && StageOk(s, u);
    assert SF.TaskOk(s.flights, t) && SF.TaskOk(s.flights, u);
  }

  /** Nothing but storing `key` itself makes `key` live. */
  lemma NotRevived<K, V>(c: Lru<K, V>, capacity: nat, key: K, now: nat, other: K, entry: Entry<V>, later: nat)
    requires 0 < capacity && WellFormed(c, capacity)
    requires !Live(c, key, now) && now <= later
    ensures !Live(Touched(c, other, now), key, later)
    ensures !Live(Drop(c, other), key, later)
    ensures key != other ==> !Live(Inserted(c, capacity, other, entry), key, later)
  {
    InsertShape(c, capacity, other, entry);
  }

  lemma CacheKept<K, V, E>(s: State<K, V, E>, capacity: nat, e: Event<K, V, E>)
    requires 0 < capacity && Inv(s, capacity) && Enabled(s, e)
    ensures WellFormed(Next(s, capacity, e).cache, capacity)
  {
    if e.Take? || e.Read? {
      GetWellFormed(s.cache, e.key, s.now, capacity);
    } else if e.Check? {
      GetWellFormed(s.cache, StageOf(s, e.task).key, s.now, capacity);
    } else if e.Remove? {
      DropWellFormed(s.cache, e.key, capacity);
    } else if e.Keep? {
      var stage := StageOf(s, e.task);
      InsertWellFormed(s.cache, capacity, stage.key, Entry(stage.value, s.now + e.ttl));
    }
  }

  lemma FlightsKept<K, V, E>(s: State<K, V, E>, capacity: nat, e: Event<K, V, E>)
    requires Inv(s, capacity) && Enabled(s, e)
    ensures SF.Inv(Next(s, capacity, e).flights)
  {
    if e.Enter? {
      assert StageOk(s, e.task);
      SF.StepKeeps(s.flights, SF.Join(e.task, StageOf(s, e.task).key));
    } else if e.Finish? {
      assert StageOk(s, e.task);
      SF.StepKeeps(s.flights, SF.Finish(e.task, StageOf(s, e.task).result));
    } else if e.Flight? {
      SF.StepKeeps(s.flights, e.step);
    }
  }

  /** A step of the flights changes the role of the caller that takes it and of no other task. */
  lemma OtherRolesKept<K, R>(f: SF.State<K, R>, step: SF.Event<K, R>, t: nat)
    requires SF.Inv(f) && SF.Enabled(f, step) && t != step.task
    ensures t in SF.Next(f, step).tasks <==> t in f.tasks
    ensures t in f.tasks ==> SF.Next(f, step).tasks[t] == f.tasks[t]
  {
  }

  lemma StepperRole<K, R>(f: SF.State<K, R>, step: SF.Event<K, R>)
    requires SF.Inv(f) && SF.Enabled(f, step)
    ensures step.task in SF.Next(f, step).tasks
    ensures var role := SF.Next(f, step).tasks[step.task];
      role.Running? <==> step.Join? && step.key !in f.flights
    ensures step.Join? && step.key !in f.flights ==> SF.Next(f, step).tasks[step.task].key == step.key
  {
    if step.Join? && step.key in f.flights {
      assert SF.FlightOk(f, step.key);
    }
  }

  lemma StageKept<K, V, E>(s: State<K, V, E>, capacity: nat, e: Event<K, V, E>, t: nat)
    requires 0 < capacity && Inv(s, capacity) && Enabled(s, e)
    ensures StageOk(Next(s, capacity, e), t)
  {
    assert StageOk(s, t);
    if e.Enter? {
      assert StageOk(s, e.task);
      var step: SF.Event<K, Fetched<V, E>> := SF.Join(e.task, StageOf(s, e.task).key);
      if t == e.task { StepperRole(s.flights, step); } else { OtherRolesKept(s.flights, step, t); }
    } else if e.Finish? {
      assert StageOk(s, e.task);
      var step: SF.Event<K, Fetched<V, E>> := SF.Finish(e.task, StageOf(s, e.task).result);
      if t == e.task { StepperRole(s.flights, step); } else { OtherRolesKept(s.flights, step, t); }
    } else if e.Flight? {
      assert StageOk(s, e.step.task);
      if t == e.step.task { StepperRole(s.flights, e.step); } else { OtherRolesKept(s.flights, e.step, t); }
    } else {
      CacheStepKeepsStage(s, capacity, e, t);
    }
  }

  lemma CacheStepKeepsStage<K, V, E>(s: State<K, V, E>, capacity: nat, e: Event<K, V, E>, t: nat)
    requires 0 < capacity && Inv(s, capacity) && Enabled(s, e)
    requires !e.Enter? && !e.Finish? && !e.Flight?
    ensures StageOk(Next(s, capacity, e), t)
  {
    assert StageOk(s, t);
    var stage := StageOf(s, t);
    if e.Keep? {
      var holding := StageOf(s, e.task);
      if Leads(stage) && stage.key == holding.key {
        LeadersDiffer(s, capacity, t, e.task);
      } else if Leads(stage) && !Live(s.cache, stage.key, s.now) {
        NotRevived(s.cache, capacity, stage.key, s.now, holding.key, Entry(holding.value, s.now + e.ttl), s.now);
      }
    } else if Leads(stage) && !Live(s.cache, stage.key, s.now) {
      StillNotLive(s, capacity, e, stage.key);
    }
  }

  lemma StillNotLive<K, V, E>(s: State<K, V, E>, capacity: nat, e: Event<K, V, E>, key: K)
    requires !e.Keep? && !Live(s.cache, key, s.now)
    ensures !Live(Next(s, capacity, e).cache, key, Next(s, capacity, e).now)
  {
  }

  lemma StepKeeps<K, V, E>(s: State<K, V, E>, capacity: nat, e: Event<K, V, E>)
    requires 0 < capacity && Inv(s, capacity) && Enabled(s, e)
    ensures Inv(Next(s, capacity, e), capacity)
  {
    FlightsKept(s, capacity, e);
    CacheKept(s, capacity, e);
    forall t ensures StageOk(Next(s, capacity, e), t) {
      StageKept(s, capacity, e, t);
    }
  }

  lemma {:induction false} EveryInterleavingKeepsInv<K, V, E>(capacity: nat, events: seq<Event<K, V, E>>)
    requires 0 < capacity && Legal(capacity, events)
    ensures Inv(After(capacity, events), capacity)
  {
    if events != [] {
      EveryInterleavingKeepsInv(capacity, events[..|events| - 1]);
      StepKeeps(After(capacity, events[..|events| - 1]), capacity, events[|events| - 1]);
    }
  }

  /**
   * No redundant fetch. When a fetch for a key starts, and all the while it runs until its value is
   * stored, that key is not live in the cache and no other call is fetching it.
   */
  lemma NoRedundantFetch<K, V, E>(capacity: nat, events: seq<Event<K, V, E>>, t: nat)
    requires 0 < capacity && Legal(capacity, events)
    requires var stage := StageOf(After(capacity, events), t); stage.Missed? || stage.Fetching? || stage.Holding?
    ensures var s := After(capacity, events); var key := StageOf(s, t).key;
      && !Live(s.cache, key, s.now)
      && forall u :: Leads(StageOf(s, u)) && StageOf(s, u).key == key ==> u == t
  {
    EveryInterleavingKeepsInv(capacity, events);
    var s := After(capacity, events);
    assert StageOk(s, t);
    forall u | Leads(StageOf(s, u)) && StageOf(s, u).key == StageOf(s, t).key ensures u == t {
      LeadersDiffer(s, capacity, t, u);
    }
  }
}
