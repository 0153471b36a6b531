/**
 * The single-flight protocol of core/src/singleflight.rs as a step machine.
 *
 * One event is one stretch of code that no other caller can interrupt: a section under the mutex,
 * one send on a channel, or a local move. Every interleaving of any number of callers is a sequence
 * of events, and a leader or a waiter may be cancelled at its await. A step that would make one of
 * the two `expect` calls fail moves its task to `Panicked`.
 */
module SingleFlights {
  import opened Sequences

  datatype Outcome<R> = Delivered(result: R) | LeaderCancelled

  datatype Role<K, R> =
    | Running(key: K)                                  // leader inside its operation, guard armed
    | Sending(key: K, left: seq<nat>, result: R)       // leader past removal, guard still armed
    | Led(key: K, result: R)                           // leader has returned, guard disarmed
    | Dropped(key: K)                                  // leader was cancelled
    | Waiting(key: K, leader: nat)
    | Left(key: K, leader: nat)                        // waiter was cancelled
    | Served(key: K, leader: nat, outcome: Outcome<R>) // waiter has returned
    | Panicked

  /**
   * `flights` is the shared map and `inbox` what has been put on the waiters' channels.
   * `owner` remembers who inserted each flight; the program does not store it.
   */
  datatype State<K, R> = State(
    flights: map<K, seq<nat>>,
    owner: map<K, nat>,
    tasks: map<nat, Role<K, R>>,
    inbox: map<nat, Outcome<R>>)

  datatype Event<K, R> =
    | Join(task: nat, key: K)
    | Finish(task: nat, result: R)
    | Send(task: nat)
    | Return(task: nat)
    | Cancel(task: nat)
    | Receive(task: nat)
    | Leave(task: nat)

  predicate Armed<K, R>(role: Role<K, R>) {
    role.Running? || role.Sending?
  }

  predicate Follows<K(==), R>(role: Role<K, R>, key: K, leader: nat) {
    (role.Waiting? || role.Left?) && role.key == key && role.leader == leader
  }

  /** Some list still holds the sending half of the channel of `w`. */
  ghost predicate SenderHeld<K, R>(s: State<K, R>, w: nat) {
    || (exists k :: k in s.flights && w in s.flights[k])
    || (exists t :: t in s.tasks && s.tasks[t].Sending? && w in s.tasks[t].left)
  }

  ghost predicate Enabled<K, R>(s: State<K, R>, e: Event<K, R>) {
    if e.Join? then e.task !in s.tasks
    else if e.task !in s.tasks then false
    else if e.Finish? || e.Cancel? then s.tasks[e.task].Running?
    else if e.Send? then s.tasks[e.task].Sending? && s.tasks[e.task].left != []
    else if e.Return? then s.tasks[e.task].Sending? && s.tasks[e.task].left == []
    else if e.Receive? then s.tasks[e.task].Waiting? && (e.task in s.inbox || !SenderHeld(s, e.task))
    else s.tasks[e.task].Waiting?
  }

  function Next<K, R>(s: State<K, R>, e: Event<K, R>): State<K, R> {
    if e.Join? then
      if e.key in s.flights && e.key in s.owner then
        s.(flights := s.flights[e.key := s.flights[e.key] + [e.task]],
           tasks := s.tasks[e.task := Waiting(e.key, s.owner[e.key])])
      else
        s.(flights := s.flights[e.key := []], owner := s.owner[e.key := e.task],
           tasks := s.tasks[e.task := Running(e.key)])
    else if e.task !in s.tasks then s
    else
      var role := s.tasks[e.task];
      if e.Finish? && role.Running? then
        if role.key in s.flights then
          s.(flights := s.flights - {role.key}, owner := s.owner - {role.key},
             tasks := s.tasks[e.task := Sending(role.key, s.flights[role.key], e.result)])
        else
          s.(tasks := s.tasks[e.task := Panicked])
      else if e.Send? && role.Sending? && role.left != [] then
        s.(inbox := s.inbox[role.left[0] := Delivered(role.result)],
           tasks := s.tasks[e.task := Sending(role.key, role.left[1..], role.result)])
      else if e.Return? && role.Sending? then
        s.(tasks := s.tasks[e.task := Led(role.key, role.result)])
      else if e.Cancel? && role.Running? then
        if role.key in s.flights then
          s.(flights := s.flights - {role.key}, owner := s.owner - {role.key},
             inbox := s.inbox + (map w | w in s.flights[role.key] :: LeaderCancelled),
             tasks := s.tasks[e.task := Dropped(role.key)])
        else
          s.(tasks := s.tasks[e.task := Dropped(role.key)])
      else if e.Receive? && role.Waiting? then
        if e.task in s.inbox then
          s.(tasks := s.tasks[e.task := Served(role.key, role.leader, s.inbox[e.task])])
        else
          s.(tasks := s.tasks[e.task := Panicked])
      else if e.Leave? && role.Waiting? then
        s.(tasks := s.tasks[e.task := Left(role.key, role.leader)])
      else s
  }

  function Start<K, R>(): State<K, R> {
    State(map[], map[], map[], map[])
  }

  /** The state after an interleaving. */
  function After<K, R>(events: seq<Event<K, R>>): State<K, R> {
    if events == [] then Start() else Next(After(events[..|events| - 1]), events[|events| - 1])
  }

  /** Every event of the interleaving was possible when it happened. */
  ghost predicate Legal<K, R>(events: seq<Event<K, R>>) {
    events == [] || (Legal(events[..|events| - 1]) && Enabled(After(events[..|events| - 1]), events[|events| - 1]))
  }

  // ---------------------------------------------------------------- invariant

  /** `w` follows leader `l` and has been sent nothing. */
  ghost predicate Pending<K, R>(s: State<K, R>, w: nat, key: K, l: nat) {
    w in s.tasks && Follows(s.tasks[w], key, l) && w !in s.inbox
  }

  ghost predicate AllPending<K, R>(s: State<K, R>, list: seq<nat>, key: K, l: nat) {
    && NoDuplicates(list)
    && forall w {:trigger Pending(s, w, key, l)} :: w in list ==> Pending(s, w, key, l)
  }

  /** A flight belongs to a running leader, and everyone on its list is waiting for that leader. */
  ghost predicate FlightOk<K, R>(s: State<K, R>, k: K)
    requires k in s.flights
  {
    && k in s.owner && s.owner[k] in s.tasks && s.tasks[s.owner[k]] == Running(k)
    && AllPending(s, s.flights[k], k, s.owner[k])
  }

  /** What a leader's state says its waiters must have been sent. */
  ghost predicate Announces<K, R>(role: Role<K, R>, outcome: Outcome<R>) {
    if role.Sending? || role.Led? then outcome == Delivered(role.result)
    else role.Dropped? && outcome == LeaderCancelled
  }

  /** `w` was sent its leader's own outcome, or is still on its leader's list. */
  ghost predicate Attended<K, R>(s: State<K, R>, w: nat, key: K, l: nat) {
    && l in s.tasks && !s.tasks[l].Panicked? && s.tasks[l].key == key
    && if w in s.inbox then Announces(s.tasks[l], s.inbox[w])
       else if s.tasks[l].Running? then key in s.flights && w in s.flights[key]
       else s.tasks[l].Sending? && w in s.tasks[l].left
  }

  ghost predicate TaskOk<K, R>(s: State<K, R>, t: nat)
    requires t in s.tasks
  {
    var role := s.tasks[t];
    if role.Running? then role.key in s.flights && role.key in s.owner && s.owner[role.key] == t
    else if role.Sending? then AllPending(s, role.left, role.key, t)
    else if role.Waiting? || role.Left? then Attended(s, t, role.key, role.leader)
    else if role.Served? then
      t in s.inbox && s.inbox[t] == role.outcome && Attended(s, t, role.key, role.leader)
    else !role.Panicked?
  }

  ghost predicate InboxOk<K, R>(s: State<K, R>, w: nat) {
    w in s.tasks && (s.tasks[w].Waiting? || s.tasks[w].Left? || s.tasks[w].Served?)
  }

  ghost predicate Inv<K, R>(s: State<K, R>) {
    && (forall k {:trigger FlightOk(s, k)} :: k in s.flights ==> FlightOk(s, k))
    && (forall t {:trigger TaskOk(s, t)} :: t in s.tasks ==> TaskOk(s, t))
    && (forall w {:trigger InboxOk(s, w)} :: w in s.inbox ==> InboxOk(s, w))
  }

  /** The waiters a step puts a result on the channel of. */
  ghost predicate Addressed<K, R>(s: State<K, R>, e: Event<K, R>, w: nat)
    requires Enabled(s, e)
  {
    if e.Send? then w == s.tasks[e.task].left[0]
    else e.Cancel? && s.tasks[e.task].key in s.flights && w in s.flights[s.tasks[e.task].key]
  }

  /** A waiter that a step sends to follows the caller that takes the step and had been sent nothing. */
  lemma AddresseeWasPending<K, R>(s: State<K, R>, e: Event<K, R>, w: nat)
    requires Inv(s) && Enabled(s, e) && Addressed(s, e, w)
    ensures Pending(s, w, s.tasks[e.task].key, e.task)
  {
    assert TaskOk(s, e.task);
    if e.Cancel? {
      assert FlightOk(s, s.tasks[e.task].key);
    }
  }

  /** The channels after a step: new outcomes for the addressed waiters, all others untouched. */
  lemma InboxAfter<K, R>(s: State<K, R>, e: Event<K, R>, w: nat)
    requires Inv(s) && Enabled(s, e)
    ensures w in Next(s, e).inbox <==> w in s.inbox || Addressed(s, e, w)
    ensures Addressed(s, e, w) ==>
      Next(s, e).inbox[w] == if e.Send? then Delivered(s.tasks[e.task].result) else LeaderCancelled
    ensures w in s.inbox ==> w in Next(s, e).inbox && Next(s, e).inbox[w] == s.inbox[w]
  {
    if !e.Join? {
      assert TaskOk(s, e.task);
    }
    if Addressed(s, e, w) {
      AddresseeWasPending(s, e, w);
    }
  }

  /** Waiters pending for another leader are still pending after the step. */
  lemma PendingKept<K, R>(s: State<K, R>, e: Event<K, R>, w: nat, key: K, l: nat)
    requires Inv(s) && Enabled(s, e) && Pending(s, w, key, l)
    requires !e.Join? ==> l != e.task
    ensures Pending(Next(s, e), w, key, l)
  {
    InboxAfter(s, e, w);
    if !e.Join? {
      assert TaskOk(s, e.task);
    }
    if Addressed(s, e, w) {
      AddresseeWasPending(s, e, w);
    }
  }

  lemma AllPendingKept<K, R>(s: State<K, R>, e: Event<K, R>, list: seq<nat>, key: K, l: nat)
    requires Inv(s) && Enabled(s, e) && AllPending(s, list, key, l)
    requires !e.Join? ==> l != e.task
    ensures AllPending(Next(s, e), list, key, l)
  {
    forall w | w in list ensures Pending(Next(s, e), w, key, l) {
      assert Pending(s, w, key, l);
      PendingKept(s, e, w, key, l);
    }
  }

  lemma JoinedFlight<K, R>(s: State<K, R>, t: nat, k: K)
    requires Inv(s) && Enabled(s, Join(t, k)) && k in s.flights
    ensures FlightOk(Next(s, Join(t, k)), k)
  {
    assert FlightOk(s, k);
    var s', l := Next(s, Join(t, k)), s.owner[k];
    AllPendingKept(s, Join(t, k), s.flights[k], k, l);
    assert t in s.inbox ==> InboxOk(s, t);
    assert t in s.flights[k] ==> Pending(s, t, k, l);
    forall w | w in s'.flights[k] ensures Pending(s', w, k, l) {
      assert w in s.flights[k] ==> Pending(s', w, k, l);
    }
  }

  lemma FlightKept<K, R>(s: State<K, R>, e: Event<K, R>, k: K)
    requires Inv(s) && Enabled(s, e) && k in Next(s, e).flights
    ensures FlightOk(Next(s, e), k)
  {
    if e.Join? && e.key == k {
      if k in s.flights {
        JoinedFlight(s, e.task, k);
      }
    } else {
      assert FlightOk(s, k);
      if !e.Join? {
        assert TaskOk(s, e.task);
      }
      AllPendingKept(s, e, s.flights[k], k, s.owner[k]);
    }
  }

  lemma InboxKept<K, R>(s: State<K, R>, e: Event<K, R>, w: nat)
    requires Inv(s) && Enabled(s, e) && w in Next(s, e).inbox
    ensures InboxOk(Next(s, e), w)
  {
    InboxAfter(s, e, w);
    if Addressed(s, e, w) {
      AddresseeWasPending(s, e, w);
    } else {
      assert InboxOk(s, w);
    }
  }

  /** A follower of a leader that takes no step stays attended. */
  lemma AttendedByOther<K, R>(s: State<K, R>, e: Event<K, R>, w: nat, key: K, l: nat)
    requires Inv(s) && Enabled(s, e)
    requires w in s.tasks && !Armed(s.tasks[w]) && (w in s.inbox || Follows(s.tasks[w], key, l))
      && Attended(s, w, key, l)
    requires !e.Join? ==> l != e.task
    ensures Attended(Next(s, e), w, key, l)
  {
    InboxAfter(s, e, w);
    if !e.Join? {
      assert TaskOk(s, e.task);
    }
    if Addressed(s, e, w) {
      AddresseeWasPending(s, e, w);
    }
    if s.tasks[l].Running? {
      assert TaskOk(s, l);
    }
  }

  /** A follower of the leader that takes the step is sent its outcome or stays on its list. */
  lemma AttendedByStepper<K, R>(s: State<K, R>, e: Event<K, R>, w: nat, key: K)
    requires Inv(s) && Enabled(s, e) && !e.Join?
    requires w in s.tasks && w != e.task && Attended(s, w, key, e.task)
    ensures Attended(Next(s, e), w, key, e.task)
  {
    InboxAfter(s, e, w);
    assert TaskOk(s, e.task);
    if s.tasks[e.task].Sending? && s.tasks[e.task].left != [] {
      var left := s.tasks[e.task].left;
      assert left == [left[0]] + left[1..];
    }
  }

  lemma FollowerKept<K, R>(s: State<K, R>, e: Event<K, R>, t: nat)
    requires Inv(s) && Enabled(s, e) && t in s.tasks && t != e.task
    requires s.tasks[t].Waiting? || s.tasks[t].Left? || s.tasks[t].Served?
    ensures t in Next(s, e).tasks && TaskOk(Next(s, e), t)
  {
    assert TaskOk(s, t);
    var role := s.tasks[t];
    InboxAfter(s, e, t);
    if !e.Join? && role.leader == e.task {
      AttendedByStepper(s, e, t, role.key);
    } else {
      AttendedByOther(s, e, t, role.key, role.leader);
    }
  }

  lemma TaskKept<K, R>(s: State<K, R>, e: Event<K, R>, t: nat)
    requires Inv(s) && Enabled(s, e) && t in Next(s, e).tasks
    ensures TaskOk(Next(s, e), t)
  {
    var s' := Next(s, e);
    if t == e.task {
      StepperOk(s, e);
    } else {
      assert TaskOk(s, t);
      var role := s.tasks[t];
      if role.Running? {
        if !e.Join? {
          assert TaskOk(s, e.task);
        }
      } else if role.Sending? {
        AllPendingKept(s, e, role.left, role.key, t);
      } else if role.Waiting? || role.Left? || role.Served? {
        FollowerKept(s, e, t);
      }
    }
  }

  lemma StepperOk<K, R>(s: State<K, R>, e: Event<K, R>)
    requires Inv(s) && Enabled(s, e)
    ensures e.task in Next(s, e).tasks && TaskOk(Next(s, e), e.task)
  {
    if e.Join? {
      JoinerOk(s, e.task, e.key);
    } else {
      assert TaskOk(s, e.task);
      if e.Finish? {
        FinisherOk(s, e.task, e.result);
      } else if e.Send? {
        SenderOk(s, e.task);
      } else if e.Receive? {
        ReceiverOk(s, e.task);
      }
    }
  }

  lemma JoinerOk<K, R>(s: State<K, R>, t: nat, k: K)
    requires Inv(s) && Enabled(s, Join(t, k))
    ensures TaskOk(Next(s, Join(t, k)), t)
  {
    if k in s.flights {
      assert FlightOk(s, k);
      assert t in s.inbox ==> InboxOk(s, t);
      assert (s.flights[k] + [t])[|s.flights[k]|] == t;
    }
  }

  lemma FinisherOk<K, R>(s: State<K, R>, t: nat, r: R)
    requires Inv(s) && Enabled(s, Finish(t, r))
    ensures TaskOk(Next(s, Finish(t, r)), t)
  {
    assert TaskOk(s, t);
    var k := s.tasks[t].key;
    assert FlightOk(s, k);
    var s' := Next(s, Finish(t, r));
    forall w | w in s.flights[k] ensures Pending(s', w, k, t) {
      assert Pending(s, w, k, t);
    }
  }

  lemma SenderOk<K, R>(s: State<K, R>, t: nat)
    requires Inv(s) && Enabled(s, Send(t))
    ensures TaskOk(Next(s, Send(t)), t)
  {
    assert TaskOk(s, t);
    var role, s' := s.tasks[t], Next(s, Send(t));
    forall w | w in role.left[1..] ensures Pending(s', w, role.key, t) {
      assert Pending(s, w, role.key, t);
    }
  }

  lemma ReceiverOk<K, R>(s: State<K, R>, t: nat)
    requires Inv(s) && Enabled(s, Receive(t))
    ensures TaskOk(Next(s, Receive(t)), t)
  {
    assert TaskOk(s, t);
  }

  lemma StepKeeps<K, R>(s: State<K, R>, e: Event<K, R>)
    requires Inv(s) && Enabled(s, e)
    ensures Inv(Next(s, e))
  {
    var s' := Next(s, e);
    forall k | k in s'.flights ensures FlightOk(s', k) {
      FlightKept(s, e, k);
    }
    forall t | t in s'.tasks ensures TaskOk(s', t) {
      TaskKept(s, e, t);
    }
    forall w | w in s'.inbox ensures InboxOk(s', w) {
      InboxKept(s, e, w);
    }
  }

  lemma {:induction false} EveryInterleavingKeepsInv<K, R>(events: seq<Event<K, R>>)
    requires Legal(events)
    ensures Inv(After(events))
  {
    if events != [] {
      EveryInterleavingKeepsInv(events[..|events| - 1]);
      StepKeeps(After(events[..|events| - 1]), events[|events| - 1]);
    }
  }

  // ---------------------------------------------------------------- what callers rely on

  /** One running leader per key, and a flight entry exactly while that leader is running. */
  lemma OneRunningLeader<K, R>(events: seq<Event<K, R>>, key: K)
    requires Legal(events)
    ensures var s := After(events);
      && (key in s.flights <==> exists t :: t in s.tasks && s.tasks[t] == Running(key))
      && forall t, u :: t in s.tasks && u in s.tasks && s.tasks[t] == Running(key) == s.tasks[u] ==> t == u
  {
    EveryInterleavingKeepsInv(events);
    var s := After(events);
    if key in s.flights {
      assert FlightOk(s, key);
    }
    forall t | t in s.tasks && s.tasks[t] == Running(key)
      ensures key in s.flights && s.owner[key] == t
    {
      assert TaskOk(s, t);
    }
  }

  /**
   * A served waiter returned its leader's own outcome: the leader's result, or `LeaderCancelled`
   * exactly when that leader was cancelled. Nobody panics, so neither `expect` fires.
   */
  lemma WaitersGetTheirLeadersOutcome<K, R>(events: seq<Event<K, R>>, t: nat)
    requires Legal(events) && t in After(events).tasks
    ensures var s := After(events);
      && !s.tasks[t].Panicked?
      && (s.tasks[t].Served? ==>
            var leader, outcome := s.tasks[t].leader, s.tasks[t].outcome;
            && leader in s.tasks && !s.tasks[leader].Panicked? && s.tasks[leader].key == s.tasks[t].key
            && (outcome.LeaderCancelled? <==> s.tasks[leader].Dropped?)
            && (outcome.Delivered? ==>
                  (s.tasks[leader].Led? || s.tasks[leader].Sending?) && s.tasks[leader].result == outcome.result))
  {
    EveryInterleavingKeepsInv(events);
    assert TaskOk(After(events), t);
  }

  /** Once a leader has returned or was cancelled, every caller that joined it has been sent its outcome. */
  lemma NobodyIsLeftWaiting<K, R>(events: seq<Event<K, R>>, w: nat)
    requires Legal(events) && w in After(events).tasks
    requires var role := After(events).tasks[w]; role.Waiting? || role.Left? || role.Served?
    ensures var s := After(events); var leader := s.tasks[w].leader;
      && leader in s.tasks
      && (s.tasks[leader].Led? || s.tasks[leader].Dropped? ==> w in s.inbox && Announces(s.tasks[leader], s.inbox[w]))
  {
    EveryInterleavingKeepsInv(events);
    assert TaskOk(After(events), w);
  }

  /** How often the channel of `w` is written in an interleaving. */
  ghost function Writes<K, R>(events: seq<Event<K, R>>, w: nat): nat
    requires Legal(events)
  {
    if events == [] then 0
    else
      var before, last := events[..|events| - 1], events[|events| - 1];
      Writes(before, w) + if Addressed(After(before), last, w) then 1 else 0
  }

  /** A channel is written at most once, and it holds an outcome exactly when it was written. */
  lemma {:induction false} SentExactlyOnce<K, R>(events: seq<Event<K, R>>, w: nat)
    requires Legal(events)
    ensures Writes(events, w) == if w in After(events).inbox then 1 else 0
  {
    if events != [] {
      var before, last := events[..|events| - 1], events[|events| - 1];
      SentExactlyOnce(before, w);
      EveryInterleavingKeepsInv(before);
      InboxAfter(After(before), last, w);
      if Addressed(After(before), last, w) {
        AddresseeWasPending(After(before), last, w);
      }
    }
  }

  /** The guard of a cancelled leader removes the flight that leader inserted, and nothing else. */
  lemma GuardRemovesItsOwnFlight<K, R>(events: seq<Event<K, R>>, t: nat)
    requires Legal(events) && Enabled(After(events), Cancel(t))
    ensures var s, s' := After(events), Next(After(events), Cancel(t)); var key := s.tasks[t].key;
      && key in s.flights && key in s.owner && s.owner[key] == t
      && s'.flights == s.flights - {key}
      && forall w :: w in s.flights[key] ==> w in s'.inbox && s'.inbox[w] == LeaderCancelled
  {
    EveryInterleavingKeepsInv(events);
    assert TaskOk(After(events), t);
  }

  /**
   * Two guards for one key can be armed at once: a leader stays armed while it sends, after its
   * flight has been removed, and a newcomer may already lead the next flight.
   */
  lemma TwoArmedGuards(result: int)
    ensures var events := [Join(0, "k"), Join(1, "k"), Finish(0, result), Join(2, "k")];
      && Legal(events)
      && 0 in After(events).tasks && 2 in After(events).tasks
      && Armed(After(events).tasks[0]) && Armed(After(events).tasks[2])
      && After(events).tasks[0].key == After(events).tasks[2].key
  {
    var none: seq<Event<string, int>> := [];
    Extend(none, Join(0, "k"));
    Extend(none + [Join(0, "k")], Join(1, "k"));
    Extend(none + [Join(0, "k")] + [Join(1, "k")], Finish(0, result));
    Extend(none + [Join(0, "k")] + [Join(1, "k")] + [Finish(0, result)], Join(2, "k"));
    assert none + [Join(0, "k")] + [Join(1, "k")] + [Finish(0, result)] + [Join(2, "k")]
        == [Join(0, "k"), Join(1, "k"), Finish(0, result), Join(2, "k")];
  }

  /** Of two armed guards of one key, one at most belongs to a running leader; the other is sending. */
  lemma OneOfTwoGuardsIsSending<K, R>(events: seq<Event<K, R>>, t: nat, u: nat)
    requires Legal(events) && t in After(events).tasks && u in After(events).tasks && t != u
    requires Armed(After(events).tasks[t]) && Armed(After(events).tasks[u])
    requires After(events).tasks[t].key == After(events).tasks[u].key
    ensures After(events).tasks[t].Sending? || After(events).tasks[u].Sending?
  {
    OneRunningLeader(events, After(events).tasks[t].key);
    var a, b := After(events).tasks[t], After(events).tasks[u];
    assert a.Running? ==> a == Running(a.key);
    assert b.Running? ==> b == Running(b.key);
  }

  /** A second guard appears when a call opens a flight, if and only if a leader of that key is sending. */
  lemma SecondGuardIff<K, R>(events: seq<Event<K, R>>, t: nat, key: K)
    requires Legal(events) && Enabled(After(events), Join(t, key)) && key !in After(events).flights
    ensures var s, s' := After(events), Next(After(events), Join(t, key));
      && s'.tasks[t] == Running(key)
      && ((exists u :: u in s'.tasks && u != t && Armed(s'.tasks[u]) && s'.tasks[u].key == key)
           <==> exists u :: u in s.tasks && s.tasks[u].Sending? && s.tasks[u].key == key)
  {
    OneRunningLeader(events, key);
    var s, s' := After(events), Next(After(events), Join(t, key));
    forall u ensures u in s.tasks && s.tasks[u].Sending? && s.tasks[u].key == key
      <==> u in s'.tasks && u != t && Armed(s'.tasks[u]) && s'.tasks[u].key == key
    {
      assert u in s.tasks && s.tasks[u].Running? ==> s.tasks[u] == Running(s.tasks[u].key);
    }
  }

  /**
   * If cloning the result panics while a leader sends, its armed guard is dropped: it removes
   * whatever flight the key has now and cancels those waiters. The senders it had not used yet are
   * dropped with it. In the runs of the other theorems, where nothing panics first, no `expect` fails.
   */
  function AfterPanic<K, R>(s: State<K, R>, t: nat): State<K, R>
    requires t in s.tasks && s.tasks[t].Sending?
  {
    var key := s.tasks[t].key;
    var dropped := s.(tasks := s.tasks[t := Panicked]);
    if key in s.flights then
      dropped.(flights := s.flights - {key}, owner := s.owner - {key},
               inbox := s.inbox + (map w | w in s.flights[key] :: LeaderCancelled))
    else dropped
  }

  /** Such a panic hits a newcomer, whose own `expect` then fails, if and only if a newcomer is running. */
  lemma SendingPanicHitsNewcomerIff<K, R>(events: seq<Event<K, R>>, t: nat, u: nat, result: R)
    requires Legal(events) && t in After(events).tasks && After(events).tasks[t].Sending?
    requires u in After(events).tasks && After(events).tasks[u].Running?
    ensures var s := After(events); var s' := AfterPanic(s, t);
      Next(s', Finish(u, result)).tasks[u].Panicked? <==> s.tasks[u].key == s.tasks[t].key
  {
    var s := After(events);
    OneRunningLeader(events, s.tasks[u].key);
    assert s.tasks[u] == Running(s.tasks[u].key);
  }

  /** Nobody else holds the sender of a waiter on the list of a sending leader. */
  lemma OnlyLeaderHoldsSender<K, R>(s: State<K, R>, t: nat, w: nat)
    requires Inv(s) && t in s.tasks && s.tasks[t].Sending? && w in s.tasks[t].left
    ensures w !in s.inbox && (forall k :: k in s.flights ==> w !in s.flights[k])
    ensures forall u :: u in s.tasks && s.tasks[u].Sending? && w in s.tasks[u].left ==> u == t
  {
    assert TaskOk(s, t) && Pending(s, w, s.tasks[t].key, t);
    forall k | k in s.flights ensures w !in s.flights[k] {
      assert FlightOk(s, k);
      assert w in s.flights[k] ==> Pending(s, w, k, s.owner[k]);
    }
    forall u | u in s.tasks && s.tasks[u].Sending? && w in s.tasks[u].left ensures u == t {
      assert TaskOk(s, u) && Pending(s, w, s.tasks[u].key, u);
    }
  }

  /** Any other waiter has been sent an outcome by now, or its sender is still held. */
  lemma OthersAreServed<K, R>(s: State<K, R>, t: nat, w: nat, s': State<K, R>)
    requires Inv(s) && t in s.tasks && s.tasks[t].Sending? && w !in s.tasks[t].left && s' == AfterPanic(s, t)
    requires w in s.tasks && s.tasks[w].Waiting?
    ensures w in s'.inbox || SenderHeld(s', w)
  {
    assert TaskOk(s, w);
    var l, key := s.tasks[w].leader, s.tasks[w].key;
    if w !in s.inbox && s.tasks[l].Running? {
      assert key in s'.flights ==> w in s'.flights[key];
    } else if w !in s.inbox {
      assert s'.tasks[l] == s.tasks[l];
    }
  }

  lemma StrandedIff<K, R>(s: State<K, R>, t: nat, w: nat, s': State<K, R>)
    requires Inv(s) && t in s.tasks && s.tasks[t].Sending? && s' == AfterPanic(s, t)
    requires w in s.tasks && s.tasks[w].Waiting?
    ensures w in s'.tasks && s'.tasks[w].Waiting?
    ensures w !in s'.inbox && !SenderHeld(s', w) <==> w in s.tasks[t].left
  {
    if w in s.tasks[t].left {
      OnlyLeaderHoldsSender(s, t, w);
    } else {
      OthersAreServed(s, t, w, s');
    }
  }

  /** And it strands those of its own waiters to which it had not sent: their `expect` fails, and only theirs. */
  lemma SendingPanicStrandsWaiterIff<K, R>(events: seq<Event<K, R>>, t: nat, w: nat, s': State<K, R>)
    requires Legal(events) && t in After(events).tasks && After(events).tasks[t].Sending?
    requires w in After(events).tasks && After(events).tasks[w].Waiting?
    requires s' == AfterPanic(After(events), t)
    ensures (Enabled(s', Receive(w)) && Next(s', Receive(w)).tasks[w].Panicked?) <==>
      w in After(events).tasks[t].left
  {
    EveryInterleavingKeepsInv(events);
    StrandedIff(After(events), t, w, s');
  }

  lemma Extend<K, R>(events: seq<Event<K, R>>, e: Event<K, R>)
    requires Legal(events) && Enabled(After(events), e)
    ensures Legal(events + [e]) && After(events + [e]) == Next(After(events), e)
  {
    assert (events + [e])[..|events|] == events;
  }

  // ---------------------------------------------------------------- the shared object

  /** Everything still on a sending leader's list is sent, one waiter at a time. */
  function Drained<K, R>(s: State<K, R>, t: nat): State<K, R>
    requires t in s.tasks && s.tasks[t].Sending?
    ensures t in Drained(s, t).tasks && Drained(s, t).tasks[t].Sending?
    decreases |s.tasks[t].left|
  {
    if s.tasks[t].left == [] then s else Drained(Next(s, Send(t)), t)
  }

  class SingleFlight<K(==), R> {
    var flights: map<K, seq<nat>>
    var inbox: map<nat, Outcome<R>>
    ghost var owner: map<K, nat>
    ghost var tasks: map<nat, Role<K, R>>

    ghost function Model(): State<K, R>
      reads this
    {
      State(flights, owner, tasks, inbox)
    }

    constructor ()
      ensures Inv(Model()) && Model() == Start()
    {
      flights, inbox, owner, tasks := map[], map[], map[], map[];
    }

    /** The first locked section of `execute`: join the flight for `key` or open one and lead it. */
    method Enter(task: nat, key: K) returns (leads: bool)
      requires Inv(Model()) && Enabled(Model(), Join(task, key))
      modifies this
      ensures Inv(Model()) && Model() == Next(old(Model()), Join(task, key))
      ensures leads <==> key !in old(flights)
    {
      StepKeeps(Model(), Join(task, key));
      if key in flights {
        assert FlightOk(Model(), key);
        flights := flights[key := flights[key] + [task]];
        tasks := tasks[task := Waiting(key, owner[key])];
        leads := false;
      } else {
        flights, owner := flights[key := []], owner[key := task];
        tasks := tasks[task := Running(key)];
        leads := true;
      }
    }

    /** The end of `execute` for a leader: remove the flight, send every waiter the result, disarm. */
    method Complete(task: nat, key: K, result: R)
      requires Inv(Model()) && Enabled(Model(), Finish(task, result)) && tasks[task].key == key
      modifies this
      ensures Inv(Model()) && key in old(flights) && key !in flights
      ensures Model() == Next(Drained(Next(old(Model()), Finish(task, result)), task), Return(task))
    {
      assert TaskOk(Model(), task);
      StepKeeps(Model(), Finish(task, result));
      var waiters := flights[key];
      flights, owner := flights - {key}, owner - {key};
      tasks := tasks[task := Sending(key, waiters, result)];
      ghost var sending := Model();
      var sent := 0;
      while sent < |waiters|
        invariant sent <= |waiters|
        invariant key !in flights && Inv(Model())
        invariant task in tasks && tasks[task] == Sending(key, waiters[sent..], result)
        invariant Drained(Model(), task) == Drained(sending, task)
      {
        StepKeeps(Model(), Send(task));
        assert waiters[sent..][1..] == waiters[sent + 1..];
        inbox := inbox[waiters[sent] := Delivered(result)];
        sent := sent + 1;
        tasks := tasks[task := Sending(key, waiters[sent..], result)];
      }
      StepKeeps(Model(), Return(task));
      tasks := tasks[task := Led(key, result)];
    }

    method NotifyCancelled(waiters: seq<nat>)
      modifies `inbox
      ensures inbox == old(inbox) + (map w | w in waiters :: LeaderCancelled)
    {
      var sent := 0;
      while sent < |waiters|
        invariant sent <= |waiters|
        invariant inbox == old(inbox) + (map w | w in waiters[..sent] :: LeaderCancelled)
      {
        assert waiters[..sent + 1] == waiters[..sent] + [waiters[sent]];
        inbox := inbox[waiters[sent] := LeaderCancelled];
        sent := sent + 1;
      }
      assert waiters[..sent] == waiters;
    }

    /** `FlightGuard::drop` of an armed guard. */
    method DropGuard(task: nat, key: K)
      requires Inv(Model()) && Enabled(Model(), Cancel(task)) && tasks[task].key == key
      modifies this
      ensures Inv(Model()) && Model() == Next(old(Model()), Cancel(task))
    {
      assert TaskOk(Model(), task);
      StepKeeps(Model(), Cancel(task));
      if key in flights {
        var waiters := flights[key];
        flights, owner := flights - {key}, owner - {key};
        NotifyCancelled(waiters);
      }
      tasks := tasks[task := Dropped(key)];
    }
  }
}
