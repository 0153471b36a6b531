/** Two runs of the coherence protocol, step by step: one tears an index hit, one leaves a stale row. */
module SqlRuns {
  import opened Wrappers
  import opened MemoryCaching
  import opened SqlCoherence
  import opened SqlGuarantees
  import opened SqlHits

  type Users = State<int, string, int>
  type UserEvent = Event<int, string, int>

  const ROWS: map<int, string> := map[1 := "Ada", 2 := "Bob"]
  const MAPPING: map<int, int> := map[7 := 1]
  const NO_ROWS: Lru<int, Option<string>> := Lru(map[], [])
  const ADA_ROW: Lru<int, Option<string>> := Lru(map[1 := Entry(Some("Ada"), 10)], [1])
  const NO_INDEX: Lru<int, Option<int>> := Lru(map[], [])
  const ADA_INDEX: Lru<int, Option<int>> := Lru(map[7 := Entry(Some(1), 10)], [7])
  const ADA_SEEN: Seen<int, string, int> := AnswerSeen(7, Some((1, "Ada")))

  /** A load of the user with secondary key 7, by reader 0, in a fresh store. */
  function Loading(reader: Reader<int, string, int>): Users {
    State(ROWS, MAPPING, NO_ROWS, NO_INDEX, 0, [], Free, 0, map[0 := reader], map[])
  }

  function UnderGate(reader: Reader<int, string, int>, indexes: Lru<int, Option<int>>): Users {
    Loading(reader).(gate := HeldByReader(0), indexes := indexes)
  }

  /** Then one mutation, by writer 0, which makes the key lead to user 2. */
  function Remapping(mapping: map<int, int>, indexes: Lru<int, Option<int>>, bumps: seq<Bumped<int, int>>, gate: Gate,
    stage: Stage<int, int>): Users
  {
    var writers := map[0 := Writer({}, [7], stage)];
    State(ROWS, mapping, ADA_ROW, indexes, |bumps|, bumps, gate, 0, map[0 := Finished], writers)
  }

  /** Or one that renames user 1. */
  function Renaming(rows: map<int, string>, stage: Stage<int, int>): Users {
    State(rows, MAPPING, ADA_ROW, ADA_INDEX, 0, [], Free, 0, map[0 := Finished], map[0 := Writer({1}, [], stage)])
  }

  const LOADED: Users :=
    State(ROWS, MAPPING, ADA_ROW, ADA_INDEX, 0, [], Free, 0, map[0 := Finished], map[])

  const RENAMED: map<int, string> := map[1 := "Grace", 2 := "Bob"]
  const REMAPPED: map<int, int> := map[7 := 2]
  const ONE_BUMP: seq<Bumped<int, int>> := [Bumped({}, [7])]

  function Bumping(indexes: Lru<int, Option<int>>, stage: Stage<int, int>): Users {
    Remapping(REMAPPED, indexes, ONE_BUMP, HeldByWriter(0), stage)
  }

  const REMAP_DONE: Users := Remapping(REMAPPED, NO_INDEX, ONE_BUMP, Free, Ended)

  /** One step between two explicit states. */
  ghost predicate Step(s: Users, e: UserEvent, s': Users) {
    Enabled(s, e) && Next(s, 10, e) == s'
  }

  lemma LoadSteps()
    ensures Step(Start(ROWS, MAPPING), StartRead(0, Secondary(7)), Loading(Starting(Secondary(7))))
    ensures Step(Loading(Starting(Secondary(7))), LoadGeneration(0), Loading(Loaded(Secondary(7), 0)))
    ensures Step(Loading(Loaded(Secondary(7), 0)), Query(0), Loading(Queried(ADA_SEEN, 0)))
    ensures Step(Loading(Queried(ADA_SEEN, 0)), TakeGate(0), UnderGate(Inserting(ADA_SEEN, 0), NO_INDEX))
  {
  }

  lemma InsertStep()
    ensures Step(UnderGate(Inserting(ADA_SEEN, 0), NO_INDEX), Insert(0, Some(10)),
                 UnderGate(HalfDone(1, "Ada", 0), ADA_INDEX))
  {
    assert Inserted(NO_INDEX, 10, 7, Entry(Some(1), 10)) == ADA_INDEX;
  }

  lemma InsertRowStep()
    ensures Step(UnderGate(HalfDone(1, "Ada", 0), ADA_INDEX), InsertRow(0, 10), LOADED)
  {
    assert Inserted(NO_ROWS, 10, 1, Entry(Some("Ada"), 10)) == ADA_ROW;
  }

  lemma StartRemapStep()
    ensures Step(LOADED, StartMutation(0, {}, [7]), Remapping(MAPPING, ADA_INDEX, [], Free, Running))
  {
  }

  /** The mutation names what it changes. */
  lemma RemapDeclares()
    ensures var s := Remapping(MAPPING, ADA_INDEX, [], Free, Running);
      Declares(s, s.writers[0], s.(rows := ROWS, mapping := REMAPPED))
  {
  }

  lemma CommitRemapStep()
    ensures Step(Remapping(MAPPING, ADA_INDEX, [], Free, Running), Commit(0, ROWS, REMAPPED),
                 Remapping(REMAPPED, ADA_INDEX, [], Free, Committed(0)))
  {
    RemapDeclares();
  }

  lemma BumpStep()
    ensures Step(Remapping(REMAPPED, ADA_INDEX, [], Free, Committed(0)), Bump(0), Bumping(ADA_INDEX, Purging({})))
  {
  }

  lemma SweepStep()
    ensures Step(Bumping(ADA_INDEX, Purging({})), Sweep(0), Bumping(ADA_INDEX, Unindexing([7])))
  {
    assert PointingInto(ADA_INDEX, {}) == {};
    KeepAll(ADA_INDEX);
  }

  lemma PurgeIndexStep()
    ensures Step(Bumping(ADA_INDEX, Unindexing([7])), PurgeIndex(0), Bumping(NO_INDEX, Unindexing([])))
  {
    assert Drop(ADA_INDEX, 7) == NO_INDEX;
  }

  lemma ReleaseStep()
    ensures Step(Bumping(NO_INDEX, Unindexing([])), Release(0), REMAP_DONE)
  {
  }

  lemma StartRenameStep()
    ensures Step(LOADED, StartMutation(0, {1}, []), Renaming(ROWS, Running))
  {
  }

  lemma RenameDeclares()
    ensures var s := Renaming(ROWS, Running); Declares(s, s.writers[0], s.(rows := RENAMED, mapping := MAPPING))
  {
  }

  lemma CommitRenameStep()
    ensures Step(Renaming(ROWS, Running), Commit(0, RENAMED, MAPPING), Renaming(RENAMED, Committed(0)))
  {
    RenameDeclares();
  }

  lemma DropRenameStep()
    ensures Step(Renaming(RENAMED, Committed(0)), CancelMutation(0), Renaming(RENAMED, Abandoned(0)))
  {
  }

  /** These events lead from the fresh store to this state. */
  ghost predicate LeadsTo(events: seq<UserEvent>, s: Users) {
    IsRun(Start(ROWS, MAPPING), 10, events) && After(Start(ROWS, MAPPING), 10, events) == s
  }

  lemma Then(events: seq<UserEvent>, s: Users, e: UserEvent, s': Users) returns (longer: seq<UserEvent>)
    requires LeadsTo(events, s) && Step(s, e, s')
    ensures longer == events + [e] && LeadsTo(longer, s')
  {
    longer := events + [e];
    assert longer[..|events|] == events;
  }

  lemma LoadRun() returns (events: seq<UserEvent>)
    ensures LeadsTo(events, LOADED)
  {
    LoadSteps();
    InsertStep();
    InsertRowStep();
    events := Then([], Start(ROWS, MAPPING), StartRead(0, Secondary(7)), Loading(Starting(Secondary(7))));
    events := Then(events, Loading(Starting(Secondary(7))), LoadGeneration(0), Loading(Loaded(Secondary(7), 0)));
    events := Then(events, Loading(Loaded(Secondary(7), 0)), Query(0), Loading(Queried(ADA_SEEN, 0)));
    events := Then(events, Loading(Queried(ADA_SEEN, 0)), TakeGate(0), UnderGate(Inserting(ADA_SEEN, 0), NO_INDEX));
    events := Then(events, UnderGate(Inserting(ADA_SEEN, 0), NO_INDEX), Insert(0, Some(10)),
                   UnderGate(HalfDone(1, "Ada", 0), ADA_INDEX));
    events := Then(events, UnderGate(HalfDone(1, "Ada", 0), ADA_INDEX), InsertRow(0, 10), LOADED);
  }

  lemma RemapRun(loaded: seq<UserEvent>) returns (events: seq<UserEvent>)
    requires LeadsTo(loaded, LOADED)
    ensures loaded <= events && LeadsTo(events, REMAP_DONE)
  {
    StartRemapStep();
    CommitRemapStep();
    BumpStep();
    SweepStep();
    PurgeIndexStep();
    ReleaseStep();
    events := Then(loaded, LOADED, StartMutation(0, {}, [7]), Remapping(MAPPING, ADA_INDEX, [], Free, Running));
    events := Then(events, Remapping(MAPPING, ADA_INDEX, [], Free, Running), Commit(0, ROWS, REMAPPED),
                   Remapping(REMAPPED, ADA_INDEX, [], Free, Committed(0)));
    events := Then(events, Remapping(REMAPPED, ADA_INDEX, [], Free, Committed(0)), Bump(0),
                   Bumping(ADA_INDEX, Purging({})));
    events := Then(events, Bumping(ADA_INDEX, Purging({})), Sweep(0), Bumping(ADA_INDEX, Unindexing([7])));
    events := Then(events, Bumping(ADA_INDEX, Unindexing([7])), PurgeIndex(0), Bumping(NO_INDEX, Unindexing([])));
    events := Then(events, Bumping(NO_INDEX, Unindexing([])), Release(0), REMAP_DONE);
  }

  lemma RenameRun(loaded: seq<UserEvent>) returns (events: seq<UserEvent>)
    requires LeadsTo(loaded, LOADED)
    ensures LeadsTo(events, Renaming(RENAMED, Abandoned(0)))
  {
    StartRenameStep();
    CommitRenameStep();
    DropRenameStep();
    events := Then(loaded, LOADED, StartMutation(0, {1}, []), Renaming(ROWS, Running));
    events := Then(events, Renaming(ROWS, Running), Commit(0, RENAMED, MAPPING), Renaming(RENAMED, Committed(0)));
    events := Then(events, Renaming(RENAMED, Committed(0)), CancelMutation(0), Renaming(RENAMED, Abandoned(0)));
  }

  /**
   * An index hit can be torn. Between its two reads, both in quiet states, a mutation makes the key
   * lead to another user and is invalidated completely: the hit returns the user it led to before.
   */
  lemma TornHit() returns (before: seq<UserEvent>, after: seq<UserEvent>)
    ensures IsRun(Start(ROWS, MAPPING), 10, before) && before <= after && IsRun(Start(ROWS, MAPPING), 10, after)
    ensures var s, s' := After(Start(ROWS, MAPPING), 10, before), After(Start(ROWS, MAPPING), 10, after);
      && Quiet(s) && Quiet(s') && Hits(s, s', 7, 1)
      && s'.cache.entries[1].value == Some("Ada") && RightValue(s', 7) == Some("Bob")
  {
    before := LoadRun();
    after := RemapRun(before);
    TornStates();
  }

  lemma TornStates()
    ensures Quiet(LOADED) && Quiet(REMAP_DONE) && Hits(LOADED, REMAP_DONE, 7, 1)
    ensures REMAP_DONE.cache.entries[1].value == Some("Ada") && RightValue(REMAP_DONE, 7) == Some("Bob")
  {
  }

  /** Every call has ended, the mutation was dropped, and the cache still has the old name. */
  predicate StaleAda(s: Users) {
    && (forall w :: w in s.writers ==> s.writers[w].stage.Abandoned?)
    && (forall r :: r in s.readers ==> s.readers[r].Finished?)
    && 1 in s.cache.entries && s.cache.entries[1].value == Some("Ada") && Row(s, 1) == Some("Grace")
  }

  /**
   * A future that is dropped between its commit and its invalidation never invalidates. Every call
   * has ended and the cache serves the old row.
   */
  lemma AbandonedCommitLeavesStaleRow() returns (events: seq<UserEvent>)
    ensures IsRun(Start(ROWS, MAPPING), 10, events) && StaleAda(After(Start(ROWS, MAPPING), 10, events))
  {
    events := LoadRun();
    events := RenameRun(events);
    assert StaleAda(Renaming(RENAMED, Abandoned(0)));
  }
}
