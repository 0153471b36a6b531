/**
 * The cache-coherence protocol of `CachedSqlStore` in core/src/stores_sql.rs.
 *
 * Loads and mutations are cut into the stretches between which other callers can run: loading the
 * generation, the query's read of the database, taking the gate, each insert, the commit, the bump of
 * the generation, and each single removal of an invalidation. A query reads the database at one
 * instant. Single flight is left out, so that even two loads of one key at a time are covered. An
 * operation may commit more than once before it returns, and it may fail after a commit.
 */
module SqlCoherence {
  import opened Wrappers
  import opened MemoryCaching

  /** What a query saw: the row of a primary key, or the answer for a secondary key. */
  datatype Seen<K, V, I> =
    | RowSeen(key: K, row: Option<V>)
    | AnswerSeen(index: I, answer: Option<(K, V)>)

  datatype Target<K, I> = Primary(key: K) | Secondary(index: I)

  /** A load, from just before it reads the generation. */
  datatype Reader<K, V, I> =
    | Starting(target: Target<K, I>)
    | Loaded(target: Target<K, I>, generation: nat)
    | Queried(seen: Seen<K, V, I>, generation: nat)
    | Inserting(seen: Seen<K, V, I>, generation: nat)    // holds the gate
    | HalfDone(key: K, value: V, generation: nat)        // index stored, row still to be stored
    | Finished

  /** Where a mutation or an explicit invalidation is; it names `primaries` and `keys`. */
  datatype Stage<K, I> =
    | Running
    | Committed(since: nat)           // database changed, nothing invalidated since that many bumps
    | Abandoned(since: nat)           // cancelled, or failed, between a commit and the invalidation
    | Ready                           // an explicit invalidation, which has no await to be cancelled at
    | Purging(left: set<K>)           // holds the gate, generation bumped
    | Unindexing(rest: seq<I>)        // holds the gate, mappings into `primaries` swept
    | Ended

  datatype Writer<K, I> = Writer(primaries: set<K>, keys: seq<I>, stage: Stage<K, I>)

  /** What a bump of the generation announced as changed. */
  datatype Bumped<K, I> = Bumped(primaries: set<K>, keys: seq<I>)

  datatype Gate = Free | HeldByReader(reader: nat) | HeldByWriter(writer: nat)

  datatype State<K, V, I> = State(
    rows: map<K, V>,                  // the database
    mapping: map<I, K>,               // its secondary index
    cache: Lru<K, Option<V>>,
    indexes: Lru<I, Option<K>>,
    generation: nat,
    bumps: seq<Bumped<K, I>>,         // all bumps so far, for the statements only
    gate: Gate,
    now: nat,
    readers: map<nat, Reader<K, V, I>>,
    writers: map<nat, Writer<K, I>>)

  function Row<K, V, I>(s: State<K, V, I>, k: K): Option<V> {
    if k in s.rows then Some(s.rows[k]) else None
  }

  function Mapped<K, V, I>(s: State<K, V, I>, i: I): Option<K> {
    if i in s.mapping && s.mapping[i] in s.rows then Some(s.mapping[i]) else None
  }

  /** What a query by secondary key returns. */
  function Answer<K, V, I>(s: State<K, V, I>, i: I): Option<(K, V)> {
    if i in s.mapping && s.mapping[i] in s.rows then Some((s.mapping[i], s.rows[s.mapping[i]])) else None
  }

  function KeyOf<K, V>(answer: Option<(K, V)>): Option<K> {
    if answer.Some? then Some(answer.value.0) else None
  }

  datatype Event<K, V, I> =
    | StartRead(r: nat, target: Target<K, I>)
    | LoadGeneration(r: nat)
    | Query(r: nat)
    | TakeGate(r: nat)
    | Insert(r: nat, ttl: Option<nat>)       // `None`: missing results are not cached
    | InsertRow(r: nat, lifetime: nat)
    | CancelRead(r: nat)
    | StartMutation(w: nat, primaries: set<K>, keys: seq<I>)
    | StartInvalidation(w: nat, primaries: set<K>, keys: seq<I>)
    | Commit(w: nat, rows: map<K, V>, mapping: map<I, K>)
    | CancelMutation(w: nat)                 // dropped by its caller, or its operation failed
    | Bump(w: nat)
    | PurgeRow(w: nat, key: K)
    | Sweep(w: nat)
    | PurgeIndex(w: nat)
    | Release(w: nat)
    | GetRow(key: K)
    | GetIndex(index: I)
    | Tick(elapsed: nat)

  predicate ByReader<K, V, I>(e: Event<K, V, I>) {
    e.StartRead? || e.LoadGeneration? || e.Query? || e.TakeGate? || e.Insert? || e.InsertRow? || e.CancelRead?
  }

  predicate ByWriter<K, V, I>(e: Event<K, V, I>) {
    || e.StartMutation? || e.StartInvalidation? || e.Commit? || e.CancelMutation?
    || e.Bump? || e.PurgeRow? || e.Sweep? || e.PurgeIndex? || e.Release?
  }

  /**
   * What a mutation owes the cache: it names every primary key whose row it changes, and every
   * secondary key whose answer it changes unless it names the primary key of the old answer.
   */
  ghost predicate Declares<K(!new), V(!new), I(!new)>(s: State<K, V, I>, writer: Writer<K, I>, after: State<K, V, I>) {
    && (forall k :: k !in writer.primaries ==> Row(after, k) == Row(s, k))
    && (forall i :: i !in writer.keys ==>
          Mapped(after, i) == Mapped(s, i) || (Mapped(s, i).Some? && Mapped(s, i).value in writer.primaries))
  }

  function ReaderOf<K, V, I>(s: State<K, V, I>, r: nat): Reader<K, V, I> {
    if r in s.readers then s.readers[r] else Finished
  }

  function StageOf<K, V, I>(s: State<K, V, I>, w: nat): Stage<K, I> {
    if w in s.writers then s.writers[w].stage else Ended
  }

  ghost predicate Enabled<K(!new), V(!new), I(!new)>(s: State<K, V, I>, e: Event<K, V, I>) {
    if e.StartRead? then e.r !in s.readers
    else if e.LoadGeneration? then ReaderOf(s, e.r).Starting?
    else if e.Query? then ReaderOf(s, e.r).Loaded?
    else if e.TakeGate? then ReaderOf(s, e.r).Queried? && s.gate.Free?
    else if e.Insert? then
      ReaderOf(s, e.r).Inserting? && (e.ttl.Some? ==> 0 < e.ttl.value)
        && (e.ttl.None? ==> SawNothing(ReaderOf(s, e.r).seen))
    else if e.InsertRow? then ReaderOf(s, e.r).HalfDone? && 0 < e.lifetime
    else if e.CancelRead? then
      ReaderOf(s, e.r).Starting? || ReaderOf(s, e.r).Loaded? || ReaderOf(s, e.r).Queried?
    else if e.StartMutation? || e.StartInvalidation? then e.w !in s.writers
    else if e.Commit? then
      (StageOf(s, e.w).Running? || StageOf(s, e.w).Committed?)
        && Declares(s, s.writers[e.w], s.(rows := e.rows, mapping := e.mapping))
    else if e.CancelMutation? then StageOf(s, e.w).Running? || StageOf(s, e.w).Committed?
    else if e.Bump? then (StageOf(s, e.w).Committed? || StageOf(s, e.w).Ready?) && s.gate.Free?
    else if e.PurgeRow? then StageOf(s, e.w).Purging? && e.key in StageOf(s, e.w).left
    else if e.Sweep? then StageOf(s, e.w).Purging? && StageOf(s, e.w).left == {}
    else if e.PurgeIndex? then StageOf(s, e.w).Unindexing? && StageOf(s, e.w).rest != []
    else if e.Release? then StageOf(s, e.w).Unindexing? && StageOf(s, e.w).rest == []
    else true
  }

  predicate SawNothing<K, V, I>(seen: Seen<K, V, I>) {
    if seen.RowSeen? then seen.row.None? else seen.answer.None?
  }

  function SetReader<K, V, I>(s: State<K, V, I>, r: nat, reader: Reader<K, V, I>): State<K, V, I> {
    s.(readers := s.readers[r := reader])
  }

  function SetStage<K, V, I>(s: State<K, V, I>, w: nat, stage: Stage<K, I>): State<K, V, I>
    requires w in s.writers
  {
    s.(writers := s.writers[w := s.writers[w].(stage := stage)])
  }

  function Look<K, V, I>(s: State<K, V, I>, target: Target<K, I>): Seen<K, V, I> {
    if target.Primary? then RowSeen(target.key, Row(s, target.key))
    else AnswerSeen(target.index, Answer(s, target.index))
  }

  /** The mappings an invalidation of `primaries` sweeps away. */
  function PointingInto<K, I>(indexes: Lru<I, Option<K>>, primaries: set<K>): set<I> {
    set i | i in indexes.entries && indexes.entries[i].value.Some? && indexes.entries[i].value.value in primaries
  }

  function Next<K, V, I>(s: State<K, V, I>, capacity: nat, e: Event<K, V, I>): State<K, V, I> {
    if ByReader(e) then AfterRead(s, capacity, e)
    else if ByWriter(e) then AfterWrite(s, e)
    else if e.GetRow? then s.(cache := Touched(s.cache, e.key, s.now))
    else if e.GetIndex? then s.(indexes := Touched(s.indexes, e.index, s.now))
    else if e.Tick? then s.(now := s.now + e.elapsed)
    else s
  }

  /** The steps of a load. */
  function AfterRead<K, V, I>(s: State<K, V, I>, capacity: nat, e: Event<K, V, I>): State<K, V, I> {
    if e.StartRead? then SetReader(s, e.r, Starting(e.target))
    else if e.LoadGeneration? && ReaderOf(s, e.r).Starting? then
      SetReader(s, e.r, Loaded(ReaderOf(s, e.r).target, s.generation))
    else if e.Query? && ReaderOf(s, e.r).Loaded? then
      SetReader(s, e.r, Queried(Look(s, ReaderOf(s, e.r).target), ReaderOf(s, e.r).generation))
    else if e.TakeGate? && ReaderOf(s, e.r).Queried? then
      var reader := ReaderOf(s, e.r);
      if reader.generation == s.generation then
        SetReader(s, e.r, Inserting(reader.seen, reader.generation)).(gate := HeldByReader(e.r))
      else SetReader(s, e.r, Finished)
    else if e.Insert? && ReaderOf(s, e.r).Inserting? then AfterInsert(s, capacity, e.r, e.ttl)
    else if e.InsertRow? && ReaderOf(s, e.r).HalfDone? then
      var reader := ReaderOf(s, e.r);
      SetReader(s, e.r, Finished).(gate := Free,
        cache := Inserted(s.cache, capacity, reader.key, Entry(Some(reader.value), s.now + e.lifetime)))
    else if e.CancelRead? then SetReader(s, e.r, Finished)
    else s
  }

  /** The first insert of a load, under the gate. */
  function AfterInsert<K, V, I>(s: State<K, V, I>, capacity: nat, r: nat, ttl: Option<nat>): State<K, V, I>
    requires ReaderOf(s, r).Inserting?
  {
    var seen := ReaderOf(s, r).seen;
    if ttl.None? then SetReader(s, r, Finished).(gate := Free)
    else if seen.RowSeen? then
      SetReader(s, r, Finished).(gate := Free,
        cache := Inserted(s.cache, capacity, seen.key, Entry(seen.row, s.now + ttl.value)))
    else
      SetReader(s, r, AfterAnswer(ReaderOf(s, r))).(
        gate := if seen.answer.None? then Free else s.gate,
        indexes := Inserted(s.indexes, capacity, seen.index, Entry(KeyOf(seen.answer), s.now + ttl.value)))
  }

  function AfterAnswer<K, V, I>(reader: Reader<K, V, I>): Reader<K, V, I>
    requires reader.Inserting? && reader.seen.AnswerSeen?
  {
    if reader.seen.answer.None? then Finished
    else HalfDone(reader.seen.answer.value.0, reader.seen.answer.value.1, reader.generation)
  }

  /** The steps of a mutation or of an explicit invalidation. */
  function AfterWrite<K, V, I>(s: State<K, V, I>, e: Event<K, V, I>): State<K, V, I> {
    if e.StartMutation? then s.(writers := s.writers[e.w := Writer(e.primaries, e.keys, Running)])
    else if e.StartInvalidation? then s.(writers := s.writers[e.w := Writer(e.primaries, e.keys, Ready)])
    else if e.Commit? && (StageOf(s, e.w).Running? || StageOf(s, e.w).Committed?) then
      SetStage(s, e.w, Committed(|s.bumps|)).(rows := e.rows, mapping := e.mapping)
    else if e.CancelMutation? && (StageOf(s, e.w).Running? || StageOf(s, e.w).Committed?) then
      SetStage(s, e.w, if StageOf(s, e.w).Running? then Ended else Abandoned(StageOf(s, e.w).since))
    else if e.Bump? && (StageOf(s, e.w).Committed? || StageOf(s, e.w).Ready?) then
      SetStage(s, e.w, Purging(s.writers[e.w].primaries)).(
        gate := HeldByWriter(e.w), generation := s.generation + 1,
        bumps := s.bumps + [Bumped(s.writers[e.w].primaries, s.writers[e.w].keys)])
    else if e.PurgeRow? && StageOf(s, e.w).Purging? then
      SetStage(s, e.w, Purging(StageOf(s, e.w).left - {e.key})).(cache := Drop(s.cache, e.key))
    else if e.Sweep? && StageOf(s, e.w).Purging? then
      SetStage(s, e.w, Unindexing(s.writers[e.w].keys))
        .(indexes := DropAll(s.indexes, PointingInto(s.indexes, s.writers[e.w].primaries)))
    else if e.PurgeIndex? && StageOf(s, e.w).Unindexing? && StageOf(s, e.w).rest != [] then
      var rest := StageOf(s, e.w).rest;
      SetStage(s, e.w, Unindexing(rest[1..])).(indexes := Drop(s.indexes, rest[0]))
    else if e.Release? && StageOf(s, e.w).Unindexing? then
      SetStage(s, e.w, Ended).(gate := Free)
    else s
  }

  function Start<K, V, I>(rows: map<K, V>, mapping: map<I, K>): State<K, V, I> {
    State(rows, mapping, Lru(map[], []), Lru(map[], []), 0, [], Free, 0, map[], map[])
  }

  function After<K, V, I>(start: State<K, V, I>, capacity: nat, events: seq<Event<K, V, I>>): State<K, V, I> {
    if events == [] then start
    else Next(After(start, capacity, events[..|events| - 1]), capacity, events[|events| - 1])
  }

  ghost predicate Legal<K(!new), V(!new), I(!new)>(start: State<K, V, I>, capacity: nat, events: seq<Event<K, V, I>>) {
    events == [] ||
    (Legal(start, capacity, events[..|events| - 1])
     && Enabled(After(start, capacity, events[..|events| - 1]), events[|events| - 1]))
  }

  // ---------------------------------------------------------------- invariant

  /** Committed and not yet bumped: readers that loaded the present generation may have missed it. */
  predicate Unannounced<K, I>(stage: Stage<K, I>) {
    stage.Committed? || stage.Abandoned?
  }

  /** A list of primary and secondary keys speaks for the mapping from `i` to `to`. */
  ghost predicate Covers<K, I>(primaries: set<K>, keys: seq<I>, i: I, to: Option<K>) {
    i in keys || (to.Some? && to.value in primaries)
  }

  /** One of the bumps from number `since` on named `k`. */
  ghost predicate RowNamed<K, I>(bumps: seq<Bumped<K, I>>, since: nat, k: K) {
    exists g :: since <= g < |bumps| && k in bumps[g].primaries
  }

  ghost predicate IndexNamed<K, I>(bumps: seq<Bumped<K, I>>, since: nat, i: I, to: Option<K>) {
    exists g :: since <= g < |bumps| && Covers(bumps[g].primaries, bumps[g].keys, i, to)
  }

  /** The writer has committed, has not announced it, and nobody has bumped the generation for `k` since. */
  ghost predicate UnpaidRow<K, V, I>(s: State<K, V, I>, w: nat, k: K) {
    && w in s.writers && Unannounced(s.writers[w].stage) && k in s.writers[w].primaries
    && !RowNamed(s.bumps, s.writers[w].stage.since, k)
  }

  ghost predicate UnpaidIndex<K, V, I>(s: State<K, V, I>, w: nat, i: I, to: Option<K>) {
    && w in s.writers && Unannounced(s.writers[w].stage) && Covers(s.writers[w].primaries, s.writers[w].keys, i, to)
    && !IndexNamed(s.bumps, s.writers[w].stage.since, i, to)
  }

  /** The writer is invalidating and has not reached `k`. */
  ghost predicate PurgesRow<K, V, I>(s: State<K, V, I>, w: nat, k: K) {
    w in s.writers && s.writers[w].stage.Purging? && k in s.writers[w].stage.left
  }

  ghost predicate PurgesIndex<K, V, I>(s: State<K, V, I>, w: nat, i: I, to: Option<K>) {
    && w in s.writers
    && ((s.writers[w].stage.Purging? && Covers(s.writers[w].primaries, s.writers[w].keys, i, to))
        || (s.writers[w].stage.Unindexing? && i in s.writers[w].stage.rest))
  }

  /** The writer still answers for a stale row of `k`. */
  ghost predicate OwesRow<K, V, I>(s: State<K, V, I>, w: nat, k: K) {
    UnpaidRow(s, w, k) || PurgesRow(s, w, k)
  }

  /** The writer still answers for a stale mapping from `i` to `to`. */
  ghost predicate OwesIndex<K, V, I>(s: State<K, V, I>, w: nat, i: I, to: Option<K>) {
    UnpaidIndex(s, w, i, to) || PurgesIndex(s, w, i, to)
  }

  ghost predicate RowExcused<K, V, I>(s: State<K, V, I>, k: K) {
    exists w :: OwesRow(s, w, k)
  }

  ghost predicate IndexExcused<K, V, I>(s: State<K, V, I>, i: I, to: Option<K>) {
    exists w :: OwesIndex(s, w, i, to)
  }

  ghost predicate RowOk<K, V, I>(s: State<K, V, I>, k: K) {
    k in s.cache.entries ==> s.cache.entries[k].value == Row(s, k) || RowExcused(s, k)
  }

  ghost predicate IndexOk<K, V, I>(s: State<K, V, I>, i: I) {
    i in s.indexes.entries ==>
      s.indexes.entries[i].value == Mapped(s, i) || IndexExcused(s, i, s.indexes.entries[i].value)
  }

  /** What a reader of the present generation holds is current, or an unannounced writer answers for it. */
  ghost predicate RowFresh<K, V, I>(s: State<K, V, I>, k: K, row: Option<V>) {
    row == Row(s, k) || exists w :: UnpaidRow(s, w, k)
  }

  ghost predicate IndexFresh<K, V, I>(s: State<K, V, I>, i: I, to: Option<K>) {
    to == Mapped(s, i) || exists w :: UnpaidIndex(s, w, i, to)
  }

  ghost predicate SeenFresh<K, V, I>(s: State<K, V, I>, seen: Seen<K, V, I>) {
    if seen.RowSeen? then RowFresh(s, seen.key, seen.row)
    else
      && IndexFresh(s, seen.index, KeyOf(seen.answer))
      && (seen.answer.Some? ==> RowFresh(s, seen.answer.value.0, Some(seen.answer.value.1)))
  }

  ghost predicate ReaderOk<K, V, I>(s: State<K, V, I>, r: nat) {
    var reader := ReaderOf(s, r);
    && (reader.Loaded? || reader.Queried? ==> reader.generation <= s.generation)
    && (reader.Queried? && reader.generation == s.generation ==> SeenFresh(s, reader.seen))
    && (reader.Inserting? || reader.HalfDone? ==> s.gate == HeldByReader(r) && reader.generation == s.generation)
    && (reader.Inserting? ==> SeenFresh(s, reader.seen))
    && (reader.HalfDone? ==> RowFresh(s, reader.key, Some(reader.value)))
  }

  ghost predicate WriterOk<K, V, I>(s: State<K, V, I>, w: nat) {
    StageOf(s, w).Purging? || StageOf(s, w).Unindexing? ==> s.gate == HeldByWriter(w)
  }

  ghost predicate Inv<K(!new), V, I(!new)>(s: State<K, V, I>, capacity: nat) {
    && WellFormed(s.cache, capacity) && WellFormed(s.indexes, capacity)
    && (forall k {:trigger RowOk(s, k)} :: RowOk(s, k))
    && (forall i {:trigger IndexOk(s, i)} :: IndexOk(s, i))
    && (forall r {:trigger ReaderOk(s, r)} :: ReaderOk(s, r))
    && (forall w {:trigger WriterOk(s, w)} :: WriterOk(s, w))
  }

  /** Only a commit changes the database, and only a bump the generation. */
  lemma DatabaseKept<K, V, I>(s: State<K, V, I>, capacity: nat, e: Event<K, V, I>)
    ensures !e.Commit? ==> Next(s, capacity, e).rows == s.rows && Next(s, capacity, e).mapping == s.mapping
    ensures !e.Bump? ==> Next(s, capacity, e).generation == s.generation && Next(s, capacity, e).bumps == s.bumps
  {
    if ByReader(e) {
      ReadKeepsDatabase(s, capacity, e, Next(s, capacity, e));
    } else if ByWriter(e) {
      WriteKeepsDatabase(s, e, Next(s, capacity, e));
    }
  }

  lemma ReadKeepsDatabase<K, V, I>(s: State<K, V, I>, capacity: nat, e: Event<K, V, I>, s': State<K, V, I>)
    requires s' == AfterRead(s, capacity, e)
    ensures s'.rows == s.rows && s'.mapping == s.mapping && s'.generation == s.generation
    ensures s'.writers == s.writers && s'.bumps == s.bumps
  {
    if e.Insert? && ReaderOf(s, e.r).Inserting? {
      InsertKeepsDatabase(s, capacity, e.r, e.ttl, s');
    }
  }

  lemma InsertKeepsDatabase<K, V, I>(
    s: State<K, V, I>, capacity: nat, r: nat, ttl: Option<nat>, s': State<K, V, I>)
    requires ReaderOf(s, r).Inserting? && s' == AfterInsert(s, capacity, r, ttl)
    ensures s'.rows == s.rows && s'.mapping == s.mapping && s'.generation == s.generation
    ensures s'.writers == s.writers && s'.bumps == s.bumps
  {
  }

  lemma WriteKeepsDatabase<K, V, I>(s: State<K, V, I>, e: Event<K, V, I>, s': State<K, V, I>)
    requires s' == AfterWrite(s, e)
    ensures !e.Commit? ==> s'.rows == s.rows && s'.mapping == s.mapping
    ensures !e.Bump? ==> s'.generation == s.generation && s'.bumps == s.bumps
  {
  }

  /** A step of one writer leaves every other writer as it was. */
  lemma OtherWriterKept<K, V, I>(s: State<K, V, I>, capacity: nat, e: Event<K, V, I>, w: nat)
    requires w in s.writers && (ByWriter(e) ==> e.w != w)
    ensures w in Next(s, capacity, e).writers && Next(s, capacity, e).writers[w] == s.writers[w]
  {
    if ByReader(e) {
      ReadKeepsDatabase(s, capacity, e, Next(s, capacity, e));
    } else if ByWriter(e) {
      WriteKeepsOtherWriter(s, e, w, Next(s, capacity, e));
    }
  }

  lemma WriteKeepsOtherWriter<K, V, I>(s: State<K, V, I>, e: Event<K, V, I>, w: nat, s': State<K, V, I>)
    requires w in s.writers && ByWriter(e) && e.w != w && s' == AfterWrite(s, e)
    ensures w in s'.writers && s'.writers[w] == s.writers[w]
  {
  }

  /** A writer that has committed stays one that has, until it bumps the generation itself. */
  lemma CommittedKept<K(!new), V(!new), I(!new)>(s: State<K, V, I>, capacity: nat, e: Event<K, V, I>, w: nat)
    requires Enabled(s, e) && w in s.writers && Unannounced(s.writers[w].stage) && !(e.Bump? && e.w == w)
    ensures w in Next(s, capacity, e).writers
    ensures var before, after := s.writers[w], Next(s, capacity, e).writers[w];
      && after.primaries == before.primaries && after.keys == before.keys && Unannounced(after.stage)
      && after.stage.since == if e.Commit? && e.w == w then |s.bumps| else before.stage.since
  {
    if !(ByWriter(e) && e.w == w) {
      OtherWriterKept(s, capacity, e, w);
    }
  }

  /** The debt for a row stays with the writer, or passes to the writer whose bump names the row. */
  lemma UnpaidRowKept<K(!new), V(!new), I(!new)>(
    s: State<K, V, I>, capacity: nat, e: Event<K, V, I>, s': State<K, V, I>, w: nat, k: K)
    requires Enabled(s, e) && s' == Next(s, capacity, e) && UnpaidRow(s, w, k)
    ensures UnpaidRow(s', w, k) || (e.Bump? && PurgesRow(s', e.w, k))
  {
    if e.Bump? {
      if k !in s.writers[e.w].primaries {
        CommittedKept(s, capacity, e, w);
        assert s'.bumps == s.bumps + [Bumped(s.writers[e.w].primaries, s.writers[e.w].keys)];
      }
    } else {
      CommittedKept(s, capacity, e, w);
      DatabaseKept(s, capacity, e);
    }
  }

  lemma UnpaidIndexKept<K(!new), V(!new), I(!new)>(
    s: State<K, V, I>, capacity: nat, e: Event<K, V, I>, s': State<K, V, I>, w: nat, i: I, to: Option<K>)
    requires Enabled(s, e) && s' == Next(s, capacity, e) && UnpaidIndex(s, w, i, to)
    ensures UnpaidIndex(s', w, i, to) || (e.Bump? && PurgesIndex(s', e.w, i, to))
  {
    if e.Bump? {
      if !Covers(s.writers[e.w].primaries, s.writers[e.w].keys, i, to) {
        CommittedKept(s, capacity, e, w);
        assert s'.bumps == s.bumps + [Bumped(s.writers[e.w].primaries, s.writers[e.w].keys)];
      }
    } else {
      CommittedKept(s, capacity, e, w);
      DatabaseKept(s, capacity, e);
    }
  }

  lemma PurgesRowKept<K(!new), V(!new), I(!new)>(
    s: State<K, V, I>, capacity: nat, e: Event<K, V, I>, s': State<K, V, I>, w: nat, k: K)
    requires Enabled(s, e) && s' == Next(s, capacity, e) && PurgesRow(s, w, k) && !(e.PurgeRow? && e.key == k)
    ensures PurgesRow(s', w, k)
  {
    if !(ByWriter(e) && e.w == w) {
      OtherWriterKept(s, capacity, e, w);
    }
  }

  /** The mappings that a step of a writer removes. */
  ghost predicate Unmaps<K(!new), V(!new), I(!new)>(s: State<K, V, I>, e: Event<K, V, I>, i: I, to: Option<K>)
    requires Enabled(s, e)
  {
    || (e.PurgeIndex? && StageOf(s, e.w).rest[0] == i)
    || (e.Sweep? && to.Some? && to.value in s.writers[e.w].primaries)
  }

  lemma PurgesIndexKept<K(!new), V(!new), I(!new)>(
    s: State<K, V, I>, capacity: nat, e: Event<K, V, I>, s': State<K, V, I>, w: nat, i: I, to: Option<K>)
    requires Enabled(s, e) && s' == Next(s, capacity, e) && PurgesIndex(s, w, i, to) && !Unmaps(s, e, i, to)
    ensures PurgesIndex(s', w, i, to)
  {
    if !(ByWriter(e) && e.w == w) {
      OtherWriterKept(s, capacity, e, w);
    } else if e.PurgeIndex? {
      var rest := StageOf(s, w).rest;
      assert rest == [rest[0]] + rest[1..];
    }
  }

  /** A commit that changes a row answers for it. */
  lemma CommitOwesRow<K(!new), V(!new), I(!new)>(
    s: State<K, V, I>, capacity: nat, e: Event<K, V, I>, s': State<K, V, I>, k: K)
    requires Enabled(s, e) && s' == Next(s, capacity, e)
    ensures Row(s', k) == Row(s, k) || (e.Commit? && UnpaidRow(s', e.w, k))
  {
    DatabaseKept(s, capacity, e);
    if e.Commit? {
      assert Row(s', k) == Row(s.(rows := e.rows, mapping := e.mapping), k);
    }
  }

  lemma CommitOwesIndex<K(!new), V(!new), I(!new)>(
    s: State<K, V, I>, capacity: nat, e: Event<K, V, I>, s': State<K, V, I>, i: I)
    requires Enabled(s, e) && s' == Next(s, capacity, e)
    ensures Mapped(s', i) == Mapped(s, i) || (e.Commit? && UnpaidIndex(s', e.w, i, Mapped(s, i)))
  {
    DatabaseKept(s, capacity, e);
    if e.Commit? {
      assert Mapped(s', i) == Mapped(s.(rows := e.rows, mapping := e.mapping), i);
    }
  }

  /** A value that was current or excused still is, as long as its own removal is not the step. */
  lemma RowStaysOk<K(!new), V(!new), I(!new)>(
    s: State<K, V, I>, capacity: nat, e: Event<K, V, I>, s': State<K, V, I>, k: K, row: Option<V>)
    requires Enabled(s, e) && s' == Next(s, capacity, e) && (row == Row(s, k) || RowExcused(s, k))
    requires !(e.PurgeRow? && e.key == k)
    ensures row == Row(s', k) || RowExcused(s', k)
  {
    if row == Row(s, k) {
      CommitOwesRow(s, capacity, e, s', k);
      assert e.Commit? && UnpaidRow(s', e.w, k) ==> OwesRow(s', e.w, k);
    } else {
      var w :| OwesRow(s, w, k);
      if UnpaidRow(s, w, k) {
        UnpaidRowKept(s, capacity, e, s', w, k);
        assert OwesRow(s', w, k) || (e.Bump? && OwesRow(s', e.w, k));
      } else {
        PurgesRowKept(s, capacity, e, s', w, k);
        assert OwesRow(s', w, k);
      }
    }
  }

  lemma IndexStaysOk<K(!new), V(!new), I(!new)>(
    s: State<K, V, I>, capacity: nat, e: Event<K, V, I>, s': State<K, V, I>, i: I, to: Option<K>)
    requires Enabled(s, e) && s' == Next(s, capacity, e) && (to == Mapped(s, i) || IndexExcused(s, i, to))
    requires !Unmaps(s, e, i, to)
    ensures to == Mapped(s', i) || IndexExcused(s', i, to)
  {
    if to == Mapped(s, i) {
      CommitOwesIndex(s, capacity, e, s', i);
      assert e.Commit? && UnpaidIndex(s', e.w, i, to) ==> OwesIndex(s', e.w, i, to);
    } else {
      var w :| OwesIndex(s, w, i, to);
      if UnpaidIndex(s, w, i, to) {
        UnpaidIndexKept(s, capacity, e, s', w, i, to);
        assert OwesIndex(s', w, i, to) || (e.Bump? && OwesIndex(s', e.w, i, to));
      } else {
        PurgesIndexKept(s, capacity, e, s', w, i, to);
        assert OwesIndex(s', w, i, to);
      }
    }
  }

  lemma RowStaysFresh<K(!new), V(!new), I(!new)>(
    s: State<K, V, I>, capacity: nat, e: Event<K, V, I>, k: K, row: Option<V>)
    requires Enabled(s, e) && RowFresh(s, k, row) && !e.Bump?
    ensures RowFresh(Next(s, capacity, e), k, row)
  {
    var s' := Next(s, capacity, e);
    if row == Row(s, k) {
      CommitOwesRow(s, capacity, e, s', k);
    } else {
      var w :| UnpaidRow(s, w, k);
      UnpaidRowKept(s, capacity, e, s', w, k);
    }
  }

  lemma IndexStaysFresh<K(!new), V(!new), I(!new)>(
    s: State<K, V, I>, capacity: nat, e: Event<K, V, I>, i: I, to: Option<K>)
    requires Enabled(s, e) && IndexFresh(s, i, to) && !e.Bump?
    ensures IndexFresh(Next(s, capacity, e), i, to)
  {
    var s' := Next(s, capacity, e);
    if to == Mapped(s, i) {
      CommitOwesIndex(s, capacity, e, s', i);
    } else {
      var w :| UnpaidIndex(s, w, i, to);
      UnpaidIndexKept(s, capacity, e, s', w, i, to);
    }
  }

  lemma SeenStaysFresh<K(!new), V(!new), I(!new)>(
    s: State<K, V, I>, capacity: nat, e: Event<K, V, I>, seen: Seen<K, V, I>)
    requires Enabled(s, e) && SeenFresh(s, seen) && !e.Bump?
    ensures SeenFresh(Next(s, capacity, e), seen)
  {
    if seen.RowSeen? {
      RowStaysFresh(s, capacity, e, seen.key, seen.row);
    } else {
      IndexStaysFresh(s, capacity, e, seen.index, KeyOf(seen.answer));
      if seen.answer.Some? {
        RowStaysFresh(s, capacity, e, seen.answer.value.0, Some(seen.answer.value.1));
      }
    }
  }
}
