/**
 * The service registry of core/src/discov.rs: reference-counted leases, the change events that are
 * sent after the lock is released, and subscriptions that replay them over a snapshot.
 */
module Discovery {
  import opened Wrappers

  datatype Endpoint = Endpoint(uri: string, weight: nat, metadata: map<string, string>)

  datatype Entry = Entry(endpoint: Endpoint, references: nat)

  type Services = map<string, map<string, Entry>>

  /** One endpoint of one service; leases and events are about these. */
  datatype Key = Key(service: string, uri: string)

  datatype Event = Added(key: Key) | Removed(key: Key)

  // ---------------------------------------------------------------- what the lock protects

  function EndpointsOf(services: Services, service: string): map<string, Entry> {
    if service in services then services[service] else map[]
  }

  predicate Listed(services: Services, k: Key) {
    k.uri in EndpointsOf(services, k.service)
  }

  function References(services: Services, k: Key): nat {
    if Listed(services, k) then EndpointsOf(services, k.service)[k.uri].references else 0
  }

  predicate Conflicts(services: Services, service: string, endpoint: Endpoint) {
    Listed(services, Key(service, endpoint.uri)) && services[service][endpoint.uri].endpoint != endpoint
  }

  /** The same endpoint counts up; a new one is listed with one reference. */
  function Published(services: Services, service: string, endpoint: Endpoint): Services {
    var k := Key(service, endpoint.uri);
    services[service := EndpointsOf(services, service)[endpoint.uri := Entry(endpoint, References(services, k) + 1)]]
  }

  /** The last reference takes the endpoint out, and the last endpoint its service. */
  function Released(services: Services, k: Key): Services {
    if !Listed(services, k) then services
    else
      var endpoints := services[k.service];
      var entry := endpoints[k.uri];
      if entry.references > 1 then
        services[k.service := endpoints[k.uri := Entry(entry.endpoint, entry.references - 1)]]
      else
        var rest := endpoints - {k.uri};
        if rest == map[] then services - {k.service} else services[k.service := rest]
  }

  // ---------------------------------------------------------------- events and replay

  /** What the events last said about an endpoint, if anything: that it was added, or not. */
  function Says(events: seq<Event>, k: Key): Option<bool> {
    if events == [] then None
    else if events[|events| - 1].key == k then Some(events[|events| - 1].Added?)
    else Says(events[..|events| - 1], k)
  }

  function Applied(endpoints: set<string>, service: string, e: Event): set<string> {
    if e.key.service != service then endpoints
    else if e.Added? then endpoints + {e.key.uri}
    else endpoints - {e.key.uri}
  }

  /** A snapshot of one service after these events. */
  function Replay(endpoints: set<string>, service: string, events: seq<Event>): set<string> {
    if events == [] then endpoints
    else Applied(Replay(endpoints, service, events[..|events| - 1]), service, events[|events| - 1])
  }

  lemma {:induction false} ReplayFollowsLastEvent(endpoints: set<string>, k: Key, events: seq<Event>)
    ensures k.uri in Replay(endpoints, k.service, events)
       <==> if Says(events, k).None? then k.uri in endpoints else Says(events, k).value
  {
    if events != [] {
      ReplayFollowsLastEvent(endpoints, k, events[..|events| - 1]);
      var e := events[|events| - 1];
      assert e.key.service == k.service && e.key.uri == k.uri <==> e.key == k;
    }
  }

  lemma SaysAppend(events: seq<Event>, e: Event, k: Key)
    ensures Says(events + [e], k) == if e.key == k then Some(e.Added?) else Says(events, k)
  {
    assert (events + [e])[..|events|] == events;
  }

  /** A later verdict overrides an earlier one. */
  lemma {:induction false} SaysSuffix(events: seq<Event>, from: nat, k: Key)
    requires from <= |events|
    ensures Says(events[from..], k).Some? ==> Says(events, k) == Says(events[from..], k)
    decreases |events|
  {
    if from < |events| {
      var before := events[..|events| - 1];
      SaysSuffix(before, from, k);
      assert before[from..] == events[from..][..|events[from..]| - 1];
    }
  }

  // ---------------------------------------------------------------- the interleavings

  /**
   * A subscription: where in the log it started and what it has received, and the snapshot it
   * took after that. It is not `ready` between the start and the snapshot, nor after it has lagged.
   */
  datatype Sub = Sub(service: string, from: nat, position: nat, ready: bool, base: set<string>, endpoints: set<string>)

  /** `changes` lists the changes in the order of the lock, `log` the events in the order of the channel. */
  datatype State = State(
    services: Services, leases: map<nat, Key>, unsent: map<nat, Event>,
    changes: seq<Event>, log: seq<Event>, subs: map<nat, Sub>)

  const START := State(map[], map[], map[], [], [], map[])

  datatype Step =
    /** The locked part of publishing under a fresh lease, and of releasing one. */
    | Publish(lease: nat, service: string, endpoint: Endpoint)
    | Release(lease: nat)
    /** The event of that change enters the channel; only then is the lease handed out or its release over. */
    | Send(lease: nat)
    | Open(sub: nat, service: string)
    /** The snapshot of `subscribe`, or a `resync`. */
    | Snapshot(sub: nat)
    | Receive(sub: nat)
    /** The channel has dropped events this subscription had not received. */
    | Lag(sub: nat, position: nat)

  predicate Enabled(s: State, step: Step) {
    if step.Publish? then step.lease !in s.leases && step.lease !in s.unsent
      && !Conflicts(s.services, step.service, step.endpoint)
    else if step.Release? then step.lease in s.leases && step.lease !in s.unsent
    else if step.Send? then step.lease in s.unsent
    else if step.Open? then step.sub !in s.subs
    else if step.Snapshot? then step.sub in s.subs
    else if step.Receive? then step.sub in s.subs && s.subs[step.sub].ready && s.subs[step.sub].position < |s.log|
    else step.sub in s.subs && s.subs[step.sub].position < step.position <= |s.log|
  }

  function SnapshotOf(services: Services, service: string): set<string> {
    EndpointsOf(services, service).Keys
  }

  function WithEvent(s: State, lease: nat, e: Event): State {
    s.(changes := s.changes + [e], unsent := s.unsent[lease := e])
  }

  function PublishStep(s: State, lease: nat, service: string, endpoint: Endpoint): State {
    var k := Key(service, endpoint.uri);
    var next := s.(services := Published(s.services, service, endpoint), leases := s.leases[lease := k]);
    if Listed(s.services, k) then next else WithEvent(next, lease, Added(k))
  }

  function ReleaseStep(s: State, lease: nat): State
    requires lease in s.leases
  {
    var k := s.leases[lease];
    var next := s.(services := Released(s.services, k), leases := s.leases - {lease});
    if References(s.services, k) == 1 then WithEvent(next, lease, Removed(k)) else next
  }

  function Next(s: State, step: Step): State {
    if !Enabled(s, step) then s
    else if step.Publish? then PublishStep(s, step.lease, step.service, step.endpoint)
    else if step.Release? then ReleaseStep(s, step.lease)
    else if step.Send? then s.(log := s.log + [s.unsent[step.lease]], unsent := s.unsent - {step.lease})
    else if step.Open? then s.(subs := s.subs[step.sub := Sub(step.service, |s.log|, |s.log|, false, {}, {})])
    else s.(subs := s.subs[step.sub := SubStep(s, s.subs[step.sub], step)])
  }

  function SubStep(s: State, sub: Sub, step: Step): Sub
    requires step.Snapshot? || (step.Receive? && sub.position < |s.log|) || step.Lag?
  {
    if step.Snapshot? then
      var now := SnapshotOf(s.services, sub.service);
      sub.(from := sub.position, ready := true, base := now, endpoints := now)
    else if step.Receive? then
      sub.(position := sub.position + 1, endpoints := Applied(sub.endpoints, sub.service, s.log[sub.position]))
    else sub.(position := step.position, ready := false)
  }

  /** Steps that are not possible do nothing, so any list of steps is an interleaving. */
  function After(steps: seq<Step>): State {
    if steps == [] then START else Next(After(steps[..|steps| - 1]), steps[|steps| - 1])
  }

  // ---------------------------------------------------------------- leases and references

  function Holders(leases: map<nat, Key>, k: Key): set<nat> {
    set l | l in leases && leases[l] == k
  }

  ghost predicate Counted(s: State, k: Key) {
    References(s.services, k) == |Holders(s.leases, k)| && (Listed(s.services, k) <==> Holders(s.leases, k) != {})
  }

  ghost predicate CountsRight(s: State) {
    && (forall k {:trigger Counted(s, k)} :: Counted(s, k))
    && (forall service :: service in s.services ==> s.services[service] != map[])
  }

  lemma PublishedAt(services: Services, service: string, endpoint: Endpoint, k: Key)
    ensures var after, own := Published(services, service, endpoint), Key(service, endpoint.uri);
      && References(after, k) == References(services, k) + (if k == own then 1 else 0)
      && (Listed(after, k) <==> Listed(services, k) || k == own)
  {
  }

  lemma ReleasedAt(services: Services, own: Key, k: Key)
    requires References(services, own) > 0
    ensures var after := Released(services, own);
      && References(after, k) == References(services, k) - (if k == own then 1 else 0)
      && (Listed(after, k) <==> Listed(services, k) && !(k == own && References(services, own) == 1))
  {
  }

  lemma HoldersAdd(leases: map<nat, Key>, lease: nat, own: Key, k: Key)
    requires lease !in leases
    ensures |Holders(leases[lease := own], k)| == |Holders(leases, k)| + (if k == own then 1 else 0)
  {
    var after := Holders(leases[lease := own], k);
    if k == own {
      assert after == Holders(leases, k) + {lease};
    } else {
      assert after == Holders(leases, k);
    }
  }

  lemma HoldersTake(leases: map<nat, Key>, lease: nat, k: Key)
    requires lease in leases
    ensures |Holders(leases - {lease}, k)| == |Holders(leases, k)| - (if k == leases[lease] then 1 else 0)
  {
    var after := Holders(leases - {lease}, k);
    if k == leases[lease] {
      assert Holders(leases, k) == after + {lease};
    } else {
      assert after == Holders(leases, k);
    }
  }

  lemma SizeIsPositive(leases: map<nat, Key>, k: Key)
    ensures Holders(leases, k) != {} <==> |Holders(leases, k)| > 0
  {
  }

  lemma PublishCounts(s: State, lease: nat, service: string, endpoint: Endpoint, k: Key)
    requires Counted(s, k) && lease !in s.leases
    ensures Counted(PublishStep(s, lease, service, endpoint), k)
  {
    PublishedAt(s.services, service, endpoint, k);
    HoldersAdd(s.leases, lease, Key(service, endpoint.uri), k);
    SizeIsPositive(s.leases[lease := Key(service, endpoint.uri)], k);
  }

  lemma ReleaseCounts(s: State, lease: nat, k: Key)
    requires lease in s.leases && Counted(s, s.leases[lease]) && Counted(s, k)
    ensures Counted(ReleaseStep(s, lease), k)
  {
    var own := s.leases[lease];
    assert lease in Holders(s.leases, own);
    ReleasedAt(s.services, own, k);
    HoldersTake(s.leases, lease, k);
    SizeIsPositive(s.leases - {lease}, k);
  }

  // ---------------------------------------------------------------- events against the registry

  ghost predicate Pending(s: State, lease: nat, e: Event) {
    lease in s.unsent && s.unsent[lease] == e
  }

  ghost predicate Unsent(s: State, k: Key) {
    exists lease {:trigger lease in s.unsent} :: lease in s.unsent && s.unsent[lease].key == k
  }

  /** The changes say what is listed; an unsent addition belongs to a lease that is still held. */
  ghost predicate Recorded(s: State, k: Key) {
    && (Listed(s.services, k) <==> Says(s.changes, k) == Some(true))
    && (Says(s.log, k).Some? || Unsent(s, k) ==> Says(s.changes, k).Some?)
    && (Says(s.changes, k) == Some(false) ==> Says(s.log, k) == Some(false) || Unsent(s, k))
  }

  ghost predicate AdditionHeld(s: State, lease: nat) {
    lease in s.unsent && s.unsent[lease].Added? ==> lease in s.leases && s.leases[lease] == s.unsent[lease].key
  }

  /** A change since the snapshot is still unsent, or in the part of the log that is replayed over it. */
  ghost predicate Covered(s: State, sub: Sub, k: Key) {
    k.service == sub.service && sub.from <= |s.log| ==>
      Says(s.log[sub.from..], k).Some? || Unsent(s, k) || (k.uri in sub.base <==> Listed(s.services, k))
  }

  ghost predicate Replayed(s: State, sub: Sub) {
    sub.from <= sub.position <= |s.log| && sub.endpoints == Replay(sub.base, sub.service, s.log[sub.from..sub.position])
  }

  ghost predicate SubRight(s: State, i: nat) {
    i in s.subs ==>
      var sub := s.subs[i];
      && sub.position <= |s.log|
      && (sub.ready ==> Replayed(s, sub) && forall k {:trigger Covered(s, sub, k)} :: Covered(s, sub, k))
  }

  ghost predicate Inv(s: State) {
    && CountsRight(s)
    && (forall k {:trigger Recorded(s, k)} :: Recorded(s, k))
    && (forall lease {:trigger AdditionHeld(s, lease)} :: AdditionHeld(s, lease))
    && (forall i {:trigger SubRight(s, i)} :: SubRight(s, i))
  }

  /** What publishing or releasing does to one endpoint when it produces the event `e`. */
  predicate ChangeAt(s: State, s': State, lease: nat, e: Event, k: Key) {
    && lease !in s.unsent && s'.unsent == s.unsent[lease := e] && s'.changes == s.changes + [e]
    && s'.log == s.log && s'.subs == s.subs
    && (Listed(s'.services, k) <==> if k == e.key then e.Added? else Listed(s.services, k))
  }

  /** And when it produces none. */
  predicate QuietAt(s: State, s': State, k: Key) {
    && s'.unsent == s.unsent && s'.changes == s.changes && s'.log == s.log && s'.subs == s.subs
    && (Listed(s'.services, k) <==> Listed(s.services, k))
  }

  lemma ChangeRecords(s: State, s': State, lease: nat, e: Event, k: Key)
    requires Recorded(s, k) && ChangeAt(s, s', lease, e, k)
    ensures Recorded(s', k) && (k == e.key || Unsent(s, k) ==> Unsent(s', k))
  {
    SaysAppend(s.changes, e, k);
    assert lease in s'.unsent && s'.unsent[lease] == e;
    if Unsent(s, k) {
      var other :| other in s.unsent && s.unsent[other].key == k;
      assert other in s'.unsent && s'.unsent[other].key == k;
    }
    if Unsent(s', k) && k != e.key {
      var other :| other in s'.unsent && s'.unsent[other].key == k;
      assert other in s.unsent && s.unsent[other].key == k;
    }
  }

  lemma ChangeKeepsCovered(s: State, s': State, lease: nat, e: Event, sub: Sub, k: Key)
    requires Recorded(s, k) && ChangeAt(s, s', lease, e, k) && Covered(s, sub, k)
    ensures Covered(s', sub, k)
  {
    ChangeRecords(s, s', lease, e, k);
  }

  /** The subscriptions do not notice a change before its event. */
  lemma ChangeKeepsSub(s: State, s': State, lease: nat, e: Event, i: nat)
    requires Inv(s) && forall k {:trigger ChangeAt(s, s', lease, e, k)} :: ChangeAt(s, s', lease, e, k)
    ensures SubRight(s', i)
  {
    assert SubRight(s, i);
    assert ChangeAt(s, s', lease, e, e.key);
    if i in s.subs && s.subs[i].ready {
      var sub := s.subs[i];
      assert Replayed(s, sub);
      assert Replayed(s', sub);
      forall k ensures Covered(s', sub, k) {
        assert Recorded(s, k) && Covered(s, sub, k) && ChangeAt(s, s', lease, e, k);
        ChangeKeepsCovered(s, s', lease, e, sub, k);
      }
    }
  }

  lemma QuietKeepsSub(s: State, s': State, i: nat)
    requires Inv(s) && forall k {:trigger QuietAt(s, s', k)} :: QuietAt(s, s', k)
    ensures SubRight(s', i)
  {
    assert SubRight(s, i);
    assert QuietAt(s, s', Key("", ""));
    if i in s.subs && s.subs[i].ready {
      var sub := s.subs[i];
      assert Replayed(s, sub);
      assert Replayed(s', sub);
      forall k ensures Covered(s', sub, k) {
        assert Covered(s, sub, k) && QuietAt(s, s', k);
        assert Unsent(s', k) <==> Unsent(s, k);
      }
    }
  }

  lemma PublishRecords(s: State, step: Step, s': State, own: Key, k: Key)
    requires Inv(s) && step.Publish? && Enabled(s, step) && s' == Next(s, step)
    requires own == Key(step.service, step.endpoint.uri)
    ensures Recorded(s', k)
    ensures if Listed(s.services, own) then QuietAt(s, s', k) else ChangeAt(s, s', step.lease, Added(own), k)
  {
    assert Recorded(s, k);
    PublishedAt(s.services, step.service, step.endpoint, k);
    if Listed(s.services, own) {
      assert Unsent(s', k) <==> Unsent(s, k);
    } else {
      ChangeRecords(s, s', step.lease, Added(own), k);
    }
  }

  lemma PublishKeepsSub(s: State, step: Step, s': State, own: Key, i: nat)
    requires Inv(s) && step.Publish? && Enabled(s, step) && s' == Next(s, step)
    requires own == Key(step.service, step.endpoint.uri)
    ensures SubRight(s', i)
  {
    if Listed(s.services, own) {
      forall k ensures QuietAt(s, s', k) {
        PublishRecords(s, step, s', own, k);
      }
      QuietKeepsSub(s, s', i);
    } else {
      forall k ensures ChangeAt(s, s', step.lease, Added(own), k) {
        PublishRecords(s, step, s', own, k);
      }
      ChangeKeepsSub(s, s', step.lease, Added(own), i);
    }
  }

  lemma PublishKeepsInv(s: State, step: Step, s': State)
    requires Inv(s) && step.Publish? && Enabled(s, step) && s' == Next(s, step)
    ensures Inv(s')
  {
    var own := Key(step.service, step.endpoint.uri);
    forall k ensures Counted(s', k) {
      assert Counted(s, k);
      PublishCounts(s, step.lease, step.service, step.endpoint, k);
    }
    forall k ensures Recorded(s', k) {
      PublishRecords(s, step, s', own, k);
    }
    forall lease ensures AdditionHeld(s', lease) {
      assert AdditionHeld(s, lease);
    }
    forall i ensures SubRight(s', i) {
      PublishKeepsSub(s, step, s', own, i);
    }
  }

  lemma ReleaseRecords(s: State, step: Step, s': State, own: Key, k: Key)
    requires Inv(s) && step.Release? && Enabled(s, step) && s' == Next(s, step)
    requires own == s.leases[step.lease] && References(s.services, own) > 0
    ensures Recorded(s', k)
    ensures if References(s.services, own) == 1 then ChangeAt(s, s', step.lease, Removed(own), k) else QuietAt(s, s', k)
  {
    assert Recorded(s, k);
    ReleasedAt(s.services, own, k);
    if References(s.services, own) == 1 {
      ChangeRecords(s, s', step.lease, Removed(own), k);
    } else {
      assert Unsent(s', k) <==> Unsent(s, k);
    }
  }

  lemma ReleaseKeepsSub(s: State, step: Step, s': State, own: Key, i: nat)
    requires Inv(s) && step.Release? && Enabled(s, step) && s' == Next(s, step)
    requires own == s.leases[step.lease] && References(s.services, own) > 0
    ensures SubRight(s', i)
  {
    if References(s.services, own) == 1 {
      forall k ensures ChangeAt(s, s', step.lease, Removed(own), k) {
        ReleaseRecords(s, step, s', own, k);
      }
      ChangeKeepsSub(s, s', step.lease, Removed(own), i);
    } else {
      forall k ensures QuietAt(s, s', k) {
        ReleaseRecords(s, step, s', own, k);
      }
      QuietKeepsSub(s, s', i);
    }
  }

  lemma ReleaseKeepsInv(s: State, step: Step, s': State)
    requires Inv(s) && step.Release? && Enabled(s, step) && s' == Next(s, step)
    ensures Inv(s')
  {
    var own := s.leases[step.lease];
    assert Counted(s, own) && step.lease in Holders(s.leases, own);
    SizeIsPositive(s.leases, own);
    forall k ensures Counted(s', k) {
      assert Counted(s, k);
      ReleaseCounts(s, step.lease, k);
    }
    forall k ensures Recorded(s', k) {
      ReleaseRecords(s, step, s', own, k);
    }
    forall lease ensures AdditionHeld(s', lease) {
      assert AdditionHeld(s, lease);
    }
    forall i ensures SubRight(s', i) {
      ReleaseKeepsSub(s, step, s', own, i);
    }
  }

  lemma SendRecords(s: State, lease: nat, s': State, k: Key)
    requires Inv(s) && lease in s.unsent && s' == Next(s, Send(lease))
    ensures Recorded(s', k) && (Unsent(s, k) ==> Unsent(s', k) || k == s.unsent[lease].key)
  {
    var e := s.unsent[lease];
    SaysAppend(s.log, e, k);
    assert Recorded(s, k) && AdditionHeld(s, lease);
    if Unsent(s, k) {
      var other :| other in s.unsent && s.unsent[other].key == k;
      assert other != lease ==> other in s'.unsent && s'.unsent[other].key == k;
    }
    if Unsent(s', k) {
      var other :| other in s'.unsent && s'.unsent[other].key == k;
      assert other in s.unsent && s.unsent[other].key == k;
    }
    if k == e.key {
      assert lease in s.unsent && s.unsent[lease].key == k;
      assert Counted(s, k);
      if e.Added? {
        assert lease in Holders(s.leases, k);
      }
    }
  }

  lemma LaterLog(log: seq<Event>, e: Event, from: nat, position: nat)
    requires from <= position <= |log|
    ensures (log + [e])[from..position] == log[from..position]
    ensures (log + [e])[from..] == log[from..] + [e]
  {
  }

  lemma SendKeepsSub(s: State, lease: nat, s': State, i: nat)
    requires Inv(s) && lease in s.unsent && s' == Next(s, Send(lease))
    ensures SubRight(s', i)
  {
    assert SubRight(s, i);
    if i in s.subs && s.subs[i].ready {
      var sub, e := s.subs[i], s.unsent[lease];
      assert Replayed(s, sub);
      LaterLog(s.log, e, sub.from, sub.position);
      assert Replayed(s', sub);
      forall k ensures Covered(s', sub, k) {
        assert Covered(s, sub, k);
        SendRecords(s, lease, s', k);
        SaysAppend(s.log[sub.from..], e, k);
      }
    }
  }

  lemma SendKeepsInv(s: State, lease: nat, s': State)
    requires Inv(s) && lease in s.unsent && s' == Next(s, Send(lease))
    ensures Inv(s')
  {
    forall k ensures Counted(s', k) {
      assert Counted(s, k);
    }
    forall k ensures Recorded(s', k) {
      SendRecords(s, lease, s', k);
    }
    forall other ensures AdditionHeld(s', other) {
      assert AdditionHeld(s, other);
    }
    forall i ensures SubRight(s', i) {
      SendKeepsSub(s, lease, s', i);
    }
  }

  /** Subscriptions do not touch the rest. */
  lemma SubStepKeepsRest(s: State, s': State)
    requires Inv(s) && s' == s.(subs := s'.subs) && forall i {:trigger SubRight(s', i)} :: SubRight(s', i)
    ensures Inv(s')
  {
    forall k ensures Counted(s', k) {
      assert Counted(s, k);
    }
    forall k ensures Recorded(s', k) {
      assert Recorded(s, k);
      assert Unsent(s', k) <==> Unsent(s, k);
    }
    forall lease ensures AdditionHeld(s', lease) {
      assert AdditionHeld(s, lease);
    }
  }

  lemma OtherSubs(s: State, s': State, moved: nat, sub: Sub, i: nat)
    requires Inv(s) && s' == s.(subs := s.subs[moved := sub]) && i != moved
    ensures SubRight(s', i)
  {
    assert SubRight(s, i);
    if i in s.subs && s.subs[i].ready {
      assert Replayed(s', s.subs[i]);
      forall k ensures Covered(s', s.subs[i], k) {
        assert Covered(s, s.subs[i], k);
        assert Unsent(s', k) <==> Unsent(s, k);
      }
    }
  }

  lemma SnapshotIsRight(s: State, i: nat, s': State)
    requires Inv(s) && i in s.subs && s' == Next(s, Snapshot(i))
    ensures SubRight(s', i)
  {
    assert SubRight(s, i);
    var sub := s'.subs[i];
    assert s'.log[sub.from..sub.position] == [];
    assert Replayed(s', sub);
    forall k ensures Covered(s', sub, k) {
    }
  }

  lemma DropLastOfSlice<T>(s: seq<T>, from: nat, to: nat)
    requires from <= to < |s|
    ensures s[from..to + 1][..to - from] == s[from..to] && s[from..to + 1] == s[from..to] + [s[to]]
  {
  }

  lemma ReceiveIsRight(s: State, i: nat, s': State)
    requires Inv(s) && Enabled(s, Receive(i)) && s' == Next(s, Receive(i))
    ensures SubRight(s', i)
  {
    assert SubRight(s, i);
    var sub, sub' := s.subs[i], s'.subs[i];
    assert Replayed(s, sub);
    DropLastOfSlice(s.log, sub.from, sub.position);
    assert Replayed(s', sub');
    forall k ensures Covered(s', sub', k) {
      assert Covered(s, sub, k);
      assert Unsent(s', k) <==> Unsent(s, k);
    }
  }

  lemma SubStepKeepsInv(s: State, step: Step, s': State)
    requires Inv(s) && Enabled(s, step) && s' == Next(s, step)
    requires step.Open? || step.Snapshot? || step.Receive? || step.Lag?
    ensures Inv(s')
  {
    assert s' == s.(subs := s.subs[step.sub := s'.subs[step.sub]]);
    if step.Snapshot? {
      SnapshotIsRight(s, step.sub, s');
    } else if step.Receive? {
      ReceiveIsRight(s, step.sub, s');
    }
    forall i ensures SubRight(s', i) {
      if i != step.sub {
        OtherSubs(s, s', step.sub, s'.subs[step.sub], i);
      }
    }
    SubStepKeepsRest(s, s');
  }

  lemma StepKeepsInv(s: State, step: Step, s': State)
    requires Inv(s) && s' == Next(s, step)
    ensures Inv(s')
  {
    if !Enabled(s, step) {
    } else if step.Publish? {
      PublishKeepsInv(s, step, s');
    } else if step.Release? {
      ReleaseKeepsInv(s, step, s');
    } else if step.Send? {
      SendKeepsInv(s, step.lease, s');
    } else {
      SubStepKeepsInv(s, step, s');
    }
  }

  lemma {:induction false} EveryInterleavingKeepsInv(steps: seq<Step>)
    ensures Inv(After(steps))
  {
    if steps == [] {
      forall k ensures Counted(START, k) && Recorded(START, k) {
      }
    } else {
      EveryInterleavingKeepsInv(steps[..|steps| - 1]);
      StepKeepsInv(After(steps[..|steps| - 1]), steps[|steps| - 1], After(steps));
    }
  }

  // ---------------------------------------------------------------- results

  /** An endpoint is listed while it is leased, its count is the number of its leases, and no service is empty. */
  lemma ListedWhileLeased(steps: seq<Step>, k: Key)
    ensures var s := After(steps);
      && (Listed(s.services, k) <==> exists lease :: lease in s.leases && s.leases[lease] == k)
      && References(s.services, k) == |Holders(s.leases, k)|
      && (k.service in s.services ==> s.services[k.service] != map[])
  {
    EveryInterleavingKeepsInv(steps);
    var s := After(steps);
    assert Counted(s, k);
    if Listed(s.services, k) {
      var lease :| lease in Holders(s.leases, k);
      assert lease in s.leases && s.leases[lease] == k;
    } else {
      assert forall lease :: lease in s.leases && s.leases[lease] == k ==> lease in Holders(s.leases, k);
    }
  }

  /** The endpoint under which a lease was last handed out. */
  function LeasedAs(steps: seq<Step>, lease: nat): Option<Endpoint> {
    if steps == [] then None
    else
      var before, step := steps[..|steps| - 1], steps[|steps| - 1];
      if step.Publish? && step.lease == lease && Enabled(After(before), step) then Some(step.endpoint)
      else LeasedAs(before, lease)
  }

  /** What is listed under a key, metadata included. */
  predicate ListedAs(services: Services, k: Key, endpoint: Endpoint) {
    Listed(services, k) && services[k.service][k.uri].endpoint == endpoint && k.uri == endpoint.uri
  }

  lemma ListedAsKept(s: State, step: Step, s': State, k: Key, endpoint: Endpoint)
    requires Inv(s) && s' == Next(s, step) && ListedAs(s.services, k, endpoint) && Listed(s'.services, k)
    ensures ListedAs(s'.services, k, endpoint)
  {
  }

  /**
   * What is listed is what was published: as long as any lease of an endpoint is held, it is listed
   * with exactly the metadata under which that lease was handed out, whoever else published it.
   */
  lemma {:induction false} ListedAsPublished(steps: seq<Step>, lease: nat)
    requires lease in After(steps).leases
    ensures LeasedAs(steps, lease).Some?
    ensures ListedAs(After(steps).services, After(steps).leases[lease], LeasedAs(steps, lease).value)
  {
    var before, step := steps[..|steps| - 1], steps[|steps| - 1];
    var s, s' := After(before), After(steps);
    var k := s'.leases[lease];
    EveryInterleavingKeepsInv(before);
    ListedWhileLeased(steps, k);
    if !(step.Publish? && step.lease == lease && Enabled(s, step)) {
      assert lease in s.leases && s.leases[lease] == k;
      ListedAsPublished(before, lease);
      ListedAsKept(s, step, s', k, LeasedAs(before, lease).value);
    }
  }

  /** A publication is refused exactly when the endpoint is listed with other metadata, and then changes nothing. */
  lemma RefusedIffListedOtherwise(steps: seq<Step>, lease: nat, service: string, endpoint: Endpoint)
    requires lease !in After(steps).leases && lease !in After(steps).unsent
    ensures var s, s' := After(steps), After(steps + [Publish(lease, service, endpoint)]);
      var k := Key(service, endpoint.uri);
      && (lease in s'.leases <==> !Listed(s.services, k) || ListedAs(s.services, k, endpoint))
      && (lease !in s'.leases ==> s' == s)
  {
    var step := Publish(lease, service, endpoint);
    assert (steps + [step])[..|steps|] == steps;
  }

  /** Every change flips its endpoint: additions and removals of an endpoint alternate, additions first. */
  ghost predicate Flips(changes: seq<Event>, i: nat)
    requires i < |changes|
  {
    changes[i].Added? <==> Says(changes[..i], changes[i].key) != Some(true)
  }

  lemma NewChangeFlips(s: State, step: Step, s': State)
    requires Inv(s) && s' == Next(s, step)
    ensures s.changes <= s'.changes && |s'.changes| <= |s.changes| + 1
    ensures |s'.changes| > |s.changes| ==> Flips(s'.changes, |s.changes|)
  {
    if |s'.changes| > |s.changes| {
      var k := s'.changes[|s.changes|].key;
      assert s'.changes[..|s.changes|] == s.changes;
      assert Recorded(s, k) && Counted(s, k);
    }
  }

  lemma {:induction false} ChangesAlternate(steps: seq<Step>, i: nat)
    requires i < |After(steps).changes|
    ensures Flips(After(steps).changes, i)
  {
    if steps != [] {
      var before := steps[..|steps| - 1];
      var s, s' := After(before), After(steps);
      EveryInterleavingKeepsInv(before);
      NewChangeFlips(s, steps[|steps| - 1], s');
      if i < |s.changes| {
        ChangesAlternate(before, i);
        assert s'.changes[..i] == s.changes[..i];
      }
    }
  }

  /** What the subscription will hold once it has received everything now in the channel. */
  function CaughtUp(s: State, sub: Sub): set<string>
    requires sub.position <= |s.log|
  {
    Replay(sub.endpoints, sub.service, s.log[sub.position..])
  }

  lemma {:induction false} ReplayConcat(endpoints: set<string>, service: string, a: seq<Event>, b: seq<Event>)
    ensures Replay(endpoints, service, a + b) == Replay(Replay(endpoints, service, a), service, b)
  {
    if b == [] {
      assert a + b == a;
    } else {
      assert (a + b)[..|a + b| - 1] == a + b[..|b| - 1];
      ReplayConcat(endpoints, service, a, b[..|b| - 1]);
    }
  }

  /**
   * Replay, exactly. Take any subscription after its snapshot and any endpoint whose events have all
   * been sent. Having caught up, the subscription holds the endpoint if and only if it is listed and
   * the last event sent for it, if any since the start, is not a removal.
   */
  lemma CaughtUpExactly(steps: seq<Step>, i: nat, k: Key)
    requires i in After(steps).subs && After(steps).subs[i].ready && After(steps).subs[i].service == k.service
    requires !Unsent(After(steps), k)
    ensures var s := After(steps); var sub := s.subs[i];
      && sub.from <= sub.position <= |s.log|
      && (k.uri in CaughtUp(s, sub) <==> Listed(s.services, k) && Says(s.log[sub.from..], k) != Some(false))
  {
    EveryInterleavingKeepsInv(steps);
    var s := After(steps);
    assert SubRight(s, i) && Covered(s, s.subs[i], k) && Recorded(s, k);
    CaughtUpReplays(s, s.subs[i]);
    ReplayFollowsLastEvent(s.subs[i].base, k, s.log[s.subs[i].from..]);
    LastSent(s, s.subs[i], k);
  }

  lemma CaughtUpReplays(s: State, sub: Sub)
    requires Replayed(s, sub)
    ensures CaughtUp(s, sub) == Replay(sub.base, sub.service, s.log[sub.from..])
  {
    assert s.log[sub.from..] == s.log[sub.from..sub.position] + s.log[sub.position..];
    ReplayConcat(sub.base, sub.service, s.log[sub.from..sub.position], s.log[sub.position..]);
  }

  /** Nothing unsent: an endpoint last heard of as added is listed, and one not heard of is as it was. */
  lemma LastSent(s: State, sub: Sub, k: Key)
    requires Recorded(s, k) && Covered(s, sub, k) && !Unsent(s, k)
    requires k.service == sub.service && sub.from <= |s.log|
    ensures Says(s.log[sub.from..], k) == Some(true) ==> Listed(s.services, k)
    ensures Says(s.log[sub.from..], k) == None ==> (k.uri in sub.base <==> Listed(s.services, k))
  {
    SaysSuffix(s.log, sub.from, k);
    if Says(s.log[sub.from..], k) == Some(true) {
      assert Says(s.changes, k).Some? && Says(s.changes, k) != Some(false);
      assert Says(s.changes, k).value;
    }
  }

  /** A withdrawn endpoint never stays behind in a subscription, whatever the order of the events. */
  lemma NoPhantomEndpoints(steps: seq<Step>, i: nat, k: Key)
    requires i in After(steps).subs && After(steps).subs[i].ready && After(steps).subs[i].service == k.service
    requires !Unsent(After(steps), k) && !Listed(After(steps).services, k)
    ensures var s := After(steps); s.subs[i].position <= |s.log| && k.uri !in CaughtUp(s, s.subs[i])
  {
    CaughtUpExactly(steps, i, k);
  }

  /** The events about one endpoint. */
  function Project(events: seq<Event>, k: Key): seq<Event> {
    if events == [] then []
    else
      var before := Project(events[..|events| - 1], k);
      if events[|events| - 1].key == k then before + [events[|events| - 1]] else before
  }

  lemma {:induction false} SaysOfProjection(events: seq<Event>, k: Key)
    ensures Says(events, k) ==
      if Project(events, k) == [] then None else Some(Project(events, k)[|Project(events, k)| - 1].Added?)
  {
    if events != [] {
      SaysOfProjection(events[..|events| - 1], k);
    }
  }

  lemma OrderedSays(s: State, sub: Sub, k: Key)
    requires Recorded(s, k) && Covered(s, sub, k) && !Unsent(s, k)
    requires k.service == sub.service && sub.from <= |s.log| && Project(s.log, k) == Project(s.changes, k)
    ensures Listed(s.services, k) ==> Says(s.log[sub.from..], k) != Some(false)
  {
    SaysOfProjection(s.log, k);
    SaysOfProjection(s.changes, k);
    SaysSuffix(s.log, sub.from, k);
  }

  /** When the events about an endpoint were sent in the order of its changes, catching up is always right. */
  lemma OrderedSendsConverge(steps: seq<Step>, i: nat, k: Key)
    requires i in After(steps).subs && After(steps).subs[i].ready && After(steps).subs[i].service == k.service
    requires !Unsent(After(steps), k) && Project(After(steps).log, k) == Project(After(steps).changes, k)
    ensures var s := After(steps);
      s.subs[i].position <= |s.log| && (k.uri in CaughtUp(s, s.subs[i]) <==> Listed(s.services, k))
  {
    CaughtUpExactly(steps, i, k);
    EveryInterleavingKeepsInv(steps);
    var s := After(steps);
    assert SubRight(s, i) && Covered(s, s.subs[i], k) && Recorded(s, k);
    OrderedSays(s, s.subs[i], k);
  }

  // ---------------------------------------------------------------- a removal overtaken by an addition

  lemma Extend(steps: seq<Step>, s: State, step: Step) returns (longer: seq<Step>, s': State)
    requires s == After(steps)
    ensures longer == steps + [step] && s' == Next(s, step) && s' == After(longer)
  {
    longer, s' := steps + [step], Next(s, step);
    assert longer[..|steps|] == steps;
  }

  /** An endpoint is published, seen by a subscription, withdrawn, and published again before the removal is sent. */
  lemma WithdrawnAndBack() returns (steps: seq<Step>, s: State)
    ensures s == After(steps) && Listed(s.services, Key("s", "u"))
    ensures s.unsent == map[0 := Removed(Key("s", "u")), 1 := Added(Key("s", "u"))]
    ensures s.log == [Added(Key("s", "u"))] && s.subs == map[0 := Sub("s", 1, 1, true, {"u"}, {"u"})]
  {
    var k, endpoint := Key("s", "u"), Endpoint("u", 1, map[]);
    steps, s := Extend([], START, Publish(0, "s", endpoint));
    assert s.services == map["s" := map["u" := Entry(endpoint, 1)]] && s.unsent == map[0 := Added(k)];
    steps, s := Extend(steps, s, Send(0));
    assert s.unsent == map[] && s.log == [Added(k)] && s.leases == map[0 := k] && s.subs == map[];
    steps, s := Extend(steps, s, Open(0, "s"));
    assert s.subs == map[0 := Sub("s", 1, 1, false, {}, {})];
    assert map["u" := Entry(endpoint, 1)].Keys == {"u"};
    steps, s := Extend(steps, s, Snapshot(0));
    assert s.subs == map[0 := Sub("s", 1, 1, true, {"u"}, {"u"})];
    steps, s := Republished(steps, s, k, endpoint);
  }

  lemma Republished(steps: seq<Step>, s: State, k: Key, endpoint: Endpoint) returns (longer: seq<Step>, s': State)
    requires s == After(steps) && k == Key("s", "u") && endpoint == Endpoint("u", 1, map[])
    requires s.services == map["s" := map["u" := Entry(endpoint, 1)]] && s.unsent == map[] && s.leases == map[0 := k]
    ensures s' == After(longer) && Listed(s'.services, k)
    ensures s'.unsent == map[0 := Removed(k), 1 := Added(k)] && s'.log == s.log && s'.subs == s.subs
  {
    longer, s' := Extend(steps, s, Release(0));
    assert !Listed(s'.services, k) && s'.unsent == map[0 := Removed(k)] && s'.leases == map[];
    longer, s' := Extend(longer, s', Publish(1, "s", endpoint));
  }

  /** Then the addition is sent first: everyone has caught up, and the listed endpoint is gone from the subscription. */
  lemma OvertakenRemovalLosesEndpoint() returns (steps: seq<Step>)
    ensures var s := After(steps);
      && s.unsent == map[] && Listed(s.services, Key("s", "u"))
      && 0 in s.subs && s.subs[0].ready && s.subs[0].position <= |s.log| && CaughtUp(s, s.subs[0]) == {}
  {
    var k, s := Key("s", "u"), START;
    steps, s := WithdrawnAndBack();
    steps, s := Extend(steps, s, Send(1));
    assert s.log == [Added(k), Added(k)] && s.unsent == map[0 := Removed(k)];
    steps, s := Extend(steps, s, Send(0));
    assert s.log == [Added(k)] + [Added(k), Removed(k)] && s.subs[0].position == 1;
    assert s.log[1..] == [Added(k), Removed(k)];
    ReplayOvertaken(k);
  }

  lemma ReplayOvertaken(k: Key)
    ensures Replay({k.uri}, k.service, [Added(k), Removed(k)]) == {}
  {
    var tail := [Added(k), Removed(k)];
    assert tail[..1] == [Added(k)] && [Added(k)][..0] == [];
    assert Replay({k.uri}, k.service, [Added(k)]) == {k.uri};
  }

  // ---------------------------------------------------------------- the registry, its leases and its subscriptions

  /** What the channel keeps for receivers that are behind. */
  const EVENT_BUFFER_SIZE := 128

  /** `Pending` stands for a call that goes on waiting. */
  datatype Received = Change(event: Event) | Lagged(skipped: nat) | Pending

  class ServiceRegistry {
    var services: Services
    /** Everything sent to the channel. */
    var channel: seq<Event>

    constructor ()
      ensures services == map[] && channel == []
    {
      services, channel := map[], [];
    }

    /** `None` when the endpoint is listed with other metadata; nothing changes then. */
    method PublishEndpoint(service: string, endpoint: Endpoint) returns (lease: ServiceLease?)
      modifies this
      ensures lease == null <==> Conflicts(old(services), service, endpoint)
      ensures lease == null ==> services == old(services) && channel == old(channel)
      ensures lease != null ==> fresh(lease) && lease.active && lease.registry == this
      ensures lease != null ==> lease.key == Key(service, endpoint.uri)
      ensures lease != null ==> services == Published(old(services), service, endpoint)
      ensures lease != null && Listed(old(services), lease.key) ==> channel == old(channel)
      ensures lease != null && !Listed(old(services), lease.key) ==> channel == old(channel) + [Added(lease.key)]
    {
      var endpoints := if service in services then services[service] else map[];
      var added := false;
      if endpoint.uri in endpoints {
        var entry := endpoints[endpoint.uri];
        if entry.endpoint != endpoint {
          return null;
        }
        endpoints := endpoints[endpoint.uri := Entry(entry.endpoint, entry.references + 1)];
      } else {
        endpoints := endpoints[endpoint.uri := Entry(endpoint, 1)];
        added := true;
      }
      services := services[service := endpoints];
      if added {
        channel := channel + [Added(Key(service, endpoint.uri))];
      }
      lease := new ServiceLease(this, Key(service, endpoint.uri));
    }

    /** A snapshot and the place in the channel from which to replay. */
    method Subscribe(service: string) returns (subscription: ServiceSubscription)
      ensures fresh(subscription) && subscription.registry == this && subscription.service == service
      ensures subscription.position == |channel| && subscription.endpoints == SnapshotOf(services, service)
    {
      subscription := new ServiceSubscription(this, service, |channel|);
      subscription.Resync();
    }
  }

  class ServiceLease {
    const registry: ServiceRegistry
    const key: Key
    var active: bool

    constructor (registry: ServiceRegistry, key: Key)
      ensures this.registry == registry && this.key == key && active
    {
      this.registry, this.key, active := registry, key, true;
    }

    /** Counts once, however often it is called. */
    method Release()
      requires Listed(registry.services, key) ==> References(registry.services, key) > 0
      modifies this, registry
      ensures !active
      ensures registry.services == if old(active) then Released(old(registry.services), key) else old(registry.services)
      ensures registry.channel == old(registry.channel)
        + if old(active) && References(old(registry.services), key) == 1 then [Removed(key)] else []
    {
      if !active {
        return;
      }
      active := false;
      if key.service !in registry.services || key.uri !in registry.services[key.service] {
        return;
      }
      var endpoints := registry.services[key.service];
      var entry := endpoints[key.uri];
      if entry.references > 1 {
        var fewer := Entry(entry.endpoint, entry.references - 1);
        registry.services := registry.services[key.service := endpoints[key.uri := fewer]];
        return;
      }
      endpoints := endpoints - {key.uri};
      registry.services := if endpoints == map[] then registry.services - {key.service}
                           else registry.services[key.service := endpoints];
      registry.channel := registry.channel + [Removed(key)];
    }
  }

  class ServiceSubscription {
    const registry: ServiceRegistry
    const service: string
    var position: nat
    var endpoints: set<string>

    constructor (registry: ServiceRegistry, service: string, position: nat)
      ensures this.registry == registry && this.service == service && this.position == position && endpoints == {}
    {
      this.registry, this.service, this.position, endpoints := registry, service, position, {};
    }

    method Resync()
      modifies `endpoints
      ensures endpoints == SnapshotOf(registry.services, service)
    {
      endpoints := if service in registry.services then registry.services[service].Keys else {};
    }

    /**
     * Replays up to the next event that changes the snapshot, and returns that one; `Pending` when there
     * is none yet. A subscription that has fallen more than the buffer behind is told how much it missed.
     */
    method Recv() returns (received: Received)
      requires position <= |registry.channel|
      modifies this
      ensures received.Lagged? <==> |registry.channel| - old(position) > EVENT_BUFFER_SIZE
      ensures received.Lagged? ==> endpoints == old(endpoints) && position == old(position) + received.skipped
      ensures received.Lagged? ==> position == |registry.channel| - EVENT_BUFFER_SIZE
      ensures old(position) <= position <= |registry.channel|
      ensures !received.Lagged? ==>
        endpoints == Replay(old(endpoints), service, registry.channel[old(position)..position])
      ensures received.Pending? ==> position == |registry.channel| && endpoints == old(endpoints)
      ensures received.Change? ==> position > old(position) && received.event == registry.channel[position - 1]
      ensures received.Change? ==> received.event.key.service == service
      ensures received.Change? ==> (received.event.Added? <==> received.event.key.uri !in old(endpoints))
      ensures received.Change? ==> endpoints == Applied(old(endpoints), service, received.event)
    {
      while position < |registry.channel|
        invariant old(position) <= position <= |registry.channel|
        invariant position > old(position) ==> |registry.channel| - old(position) <= EVENT_BUFFER_SIZE
        invariant endpoints == old(endpoints)
          == Replay(old(endpoints), service, registry.channel[old(position)..position])
        decreases |registry.channel| - position
      {
        if |registry.channel| - position > EVENT_BUFFER_SIZE {
          var skipped := |registry.channel| - EVENT_BUFFER_SIZE - position;
          position := position + skipped;
          return Lagged(skipped);
        }
        var event := registry.channel[position];
        ReplayNext(old(endpoints), service, registry.channel, old(position), position);
        position := position + 1;
        if event.key.service == service {
          var changed := if event.Added? then event.key.uri !in endpoints else event.key.uri in endpoints;
          endpoints := if event.Added? then endpoints + {event.key.uri} else endpoints - {event.key.uri};
          if changed {
            return Change(event);
          }
          assert endpoints == old(endpoints);
        }
      }
      received := Pending;
    }

    /** The complete endpoint set after a change, taken afresh from the registry after a lag. */
    method Changed() returns (now: Option<set<string>>)
      requires position <= |registry.channel|
      modifies this
      ensures now.Some? ==> now.value == endpoints
      ensures now.None? ==> endpoints == old(endpoints) && position == |registry.channel|
      ensures old(position) <= position <= |registry.channel|
      ensures |registry.channel| - old(position) > EVENT_BUFFER_SIZE ==>
        now == Some(SnapshotOf(registry.services, service)) && position == |registry.channel| - EVENT_BUFFER_SIZE
      ensures |registry.channel| - old(position) <= EVENT_BUFFER_SIZE ==>
        endpoints == Replay(old(endpoints), service, registry.channel[old(position)..position])
    {
      var received := Recv();
      if received.Pending? {
        return None;
      }
      if received.Lagged? {
        Resync();
      }
      now := Some(endpoints);
    }
  }

  lemma ReplayNext(endpoints: set<string>, service: string, events: seq<Event>, from: nat, i: nat)
    requires from <= i < |events|
    ensures Replay(endpoints, service, events[from..i + 1])
         == Applied(Replay(endpoints, service, events[from..i]), service, events[i])
  {
    assert events[from..i + 1][..i - from] == events[from..i];
  }
}
