/**
 * The consecutive-failure circuit breaker of core/src/breaker.rs: its lock-protected state, the
 * permits it hands out, and the guards that report each admitted call exactly once.
 */
module ConsecutiveBreakers {
  import opened Wrappers

  datatype Config = Config(maxFailures: nat, resetTimeout: nat, halfOpenMaxCalls: nat)

  /** What the builders of the configuration assert. */
  predicate Sound(c: Config) {
    0 < c.maxFailures && 0 < c.resetTimeout && 0 < c.halfOpenMaxCalls
  }

  datatype Phase =
    | Closed(failures: nat)
    | Open(openedAt: nat)
    | HalfOpen(attempts: nat, successes: nat)

  datatype Outcome = Success | Failure | Cancellation

  function Elapsed(since: nat, now: nat): nat {
    if since <= now then now - since else 0
  }

  /** The phase in which a call is judged: an open breaker whose time is up becomes half-open. */
  function Woken(c: Config, phase: Phase, now: nat): Phase {
    if phase.Open? && Elapsed(phase.openedAt, now) >= c.resetTimeout then HalfOpen(0, 0) else phase
  }

  predicate Admits(c: Config, phase: Phase, now: nat) {
    var p := Woken(c, phase, now);
    p.Closed? || (p.HalfOpen? && p.attempts < c.halfOpenMaxCalls)
  }

  function Asked(c: Config, phase: Phase, now: nat): Phase {
    var p := Woken(c, phase, now);
    if p.HalfOpen? && Admits(c, phase, now) then HalfOpen(p.attempts + 1, p.successes) else p
  }

  function Settled(c: Config, phase: Phase, outcome: Outcome, now: nat): Phase {
    if outcome.Success? then
      if phase.Closed? then Closed(0)
      else if phase.HalfOpen? then
        if phase.successes + 1 == c.halfOpenMaxCalls then Closed(0) else HalfOpen(phase.attempts, phase.successes + 1)
      else phase
    else if outcome.Failure? then
      if phase.Closed? then
        if phase.failures + 1 >= c.maxFailures then Open(now) else Closed(phase.failures + 1)
      else if phase.HalfOpen? then Open(now)
      else phase
    else if phase.HalfOpen? then HalfOpen(if phase.attempts == 0 then 0 else phase.attempts - 1, phase.successes)
    else phase
  }

  // ---------------------------------------------------------------- runs with permits

  /**
   * A breaker with its outstanding permits. A probe is tagged with the half-open phase that admitted
   * it (phases are numbered), any other permit with `None`. `older` counts the permits from before
   * the present half-open phase that have completed during it, `lateDrops` those of them that were
   * dropped unreported or cancelled.
   */
  datatype Run = Run(
    phase: Phase, epoch: nat, permits: map<nat, Option<nat>>, older: nat, lateDrops: nat,
    successes: nat, failures: nat, cancellations: nat, rejections: nat, calls: nat)

  const FRESH := Run(Closed(0), 0, map[], 0, 0, 0, 0, 0, 0, 0)

  datatype Event = Ask(permit: nat, now: nat) | Settle(permit: nat, outcome: Outcome, now: nat)

  predicate Enabled(r: Run, e: Event) {
    if e.Ask? then e.permit !in r.permits else e.permit in r.permits
  }

  function Next(c: Config, r: Run, e: Event): Run
    requires Enabled(r, e)
  {
    if e.Ask? then
      var wakes := r.phase.Open? && Woken(c, r.phase, e.now).HalfOpen?;
      var epoch := if wakes then r.epoch + 1 else r.epoch;
      var phase := Asked(c, r.phase, e.now);
      var asked := r.(phase := phase, epoch := epoch, older := if wakes then 0 else r.older,
                      lateDrops := if wakes then 0 else r.lateDrops, calls := r.calls + 1);
      if Admits(c, r.phase, e.now) then
        asked.(permits := r.permits[e.permit := if phase.HalfOpen? then Some(epoch) else None])
      else asked.(rejections := r.rejections + 1)
    else
      var late := r.permits[e.permit] != Some(r.epoch);
      r.(phase := Settled(c, r.phase, e.outcome, e.now),
         permits := r.permits - {e.permit},
         older := r.older + if late then 1 else 0,
         lateDrops := r.lateDrops + if late && e.outcome.Cancellation? then 1 else 0,
         successes := r.successes + if e.outcome.Success? then 1 else 0,
         failures := r.failures + if e.outcome.Failure? then 1 else 0,
         cancellations := r.cancellations + if e.outcome.Cancellation? then 1 else 0)
  }

  function After(c: Config, events: seq<Event>): Run
    requires Legal(c, events)
    decreases |events|, 1
  {
    if events == [] then FRESH else Next(c, After(c, events[..|events| - 1]), events[|events| - 1])
  }

  predicate Legal(c: Config, events: seq<Event>)
    decreases |events|, 0
  {
    events == [] ||
    (Legal(c, events[..|events| - 1]) && Enabled(After(c, events[..|events| - 1]), events[|events| - 1]))
  }

  /** The probes of the present half-open phase that have not completed. */
  function Probes(r: Run): set<nat> {
    set p | p in r.permits && r.permits[p] == Some(r.epoch)
  }

  ghost predicate Inv(c: Config, r: Run) {
    && (r.phase.Closed? ==> r.phase.failures < c.maxFailures)
    && (r.phase.HalfOpen? ==>
          && r.phase.successes < c.halfOpenMaxCalls
          && r.phase.attempts <= c.halfOpenMaxCalls
          && r.phase.attempts <= |Probes(r)| + r.phase.successes <= r.phase.attempts + r.older
          && |Probes(r)| <= r.phase.attempts + r.lateDrops && r.lateDrops <= r.older)
    && (forall p :: p in r.permits && r.permits[p].Some? ==> r.permits[p].value <= r.epoch)
    && r.calls == r.rejections + r.successes + r.failures + r.cancellations + |r.permits|
  }

  lemma AskedProbes(c: Config, r: Run, permit: nat, now: nat, r': Run)
    requires Sound(c) && Inv(c, r) && permit !in r.permits && r' == Next(c, r, Ask(permit, now)) && r'.phase.HalfOpen?
    ensures Probes(r') ==
      if r.phase.Open? then {permit} else if Admits(c, r.phase, now) then Probes(r) + {permit} else Probes(r)
  {
  }

  lemma AskKeeps(c: Config, r: Run, permit: nat, now: nat)
    requires Sound(c) && Inv(c, r) && permit !in r.permits
    ensures Inv(c, Next(c, r, Ask(permit, now)))
  {
    var r' := Next(c, r, Ask(permit, now));
    if r'.phase.HalfOpen? {
      AskedProbes(c, r, permit, now, r');
    }
  }

  lemma SettleKeeps(c: Config, r: Run, permit: nat, outcome: Outcome, now: nat)
    requires Sound(c) && Inv(c, r) && permit in r.permits
    ensures Inv(c, Next(c, r, Settle(permit, outcome, now)))
  {
    var r' := Next(c, r, Settle(permit, outcome, now));
    assert r'.permits.Keys == r.permits.Keys - {permit};
    assert Probes(r') == Probes(r) - {permit};
    assert |Probes(r')| == |Probes(r)| - if permit in Probes(r) then 1 else 0;
  }

  lemma {:induction false} EveryRunKeepsInv(c: Config, events: seq<Event>)
    requires Sound(c) && Legal(c, events)
    ensures Inv(c, After(c, events))
  {
    if events != [] {
      var before, e := events[..|events| - 1], events[|events| - 1];
      EveryRunKeepsInv(c, before);
      if e.Ask? {
        AskKeeps(c, After(c, before), e.permit, e.now);
      } else {
        SettleKeeps(c, After(c, before), e.permit, e.outcome, e.now);
      }
    }
  }

  /**
   * A half-open breaker never wedges. Whatever completes or is dropped, late or not, a rejection
   * while half-open means that a probe of this very phase is still outstanding; so once they have
   * all completed the next call is admitted, or the breaker has closed or reopened.
   */
  lemma HalfOpenNeverWedges(c: Config, events: seq<Event>, now: nat)
    requires Sound(c) && Legal(c, events) && After(c, events).phase.HalfOpen?
    ensures var r := After(c, events);
      && r.phase.successes < c.halfOpenMaxCalls && r.phase.attempts <= c.halfOpenMaxCalls
      && r.phase.attempts <= |Probes(r)| + r.phase.successes
      && (!Admits(c, r.phase, now) ==> exists p :: p in r.permits && r.permits[p] == Some(r.epoch))
  {
    EveryRunKeepsInv(c, events);
    var r := After(c, events);
    if !Admits(c, r.phase, now) {
      assert |Probes(r)| > 0;
      var p :| p in Probes(r);
      assert p in r.permits && r.permits[p] == Some(r.epoch);
    }
  }

  /**
   * How many probes can be in flight: at most `halfOpenMaxCalls` plus the older permits that have
   * been dropped during the phase; late successes add nothing. When no older permit has completed,
   * the attempts are exactly the probes in flight plus the successes.
   */
  lemma ProbesInFlight(c: Config, events: seq<Event>)
    requires Sound(c) && Legal(c, events) && After(c, events).phase.HalfOpen?
    ensures var r := After(c, events);
      && |Probes(r)| <= c.halfOpenMaxCalls + r.lateDrops && r.lateDrops <= r.older
      && (r.older == 0 ==> r.phase.attempts == |Probes(r)| + r.phase.successes)
  {
    EveryRunKeepsInv(c, events);
  }

  /** How many calls asked to be admitted. */
  function Asks(events: seq<Event>): nat {
    if events == [] then 0 else Asks(events[..|events| - 1]) + if events[|events| - 1].Ask? then 1 else 0
  }

  lemma {:induction false} CallsAreAsks(c: Config, events: seq<Event>)
    requires Legal(c, events)
    ensures After(c, events).calls == Asks(events)
  {
    if events != [] {
      CallsAreAsks(c, events[..|events| - 1]);
    }
  }

  /** Every call is accounted for: rejected, completed with one outcome, or still outstanding. */
  lemma {:induction false} EveryCallIsCountedOnce(c: Config, events: seq<Event>)
    requires Sound(c) && Legal(c, events)
    ensures var r := After(c, events);
      Asks(events) == r.rejections + r.successes + r.failures + r.cancellations + |r.permits|
  {
    EveryRunKeepsInv(c, events);
    CallsAreAsks(c, events);
  }

  lemma Extend(c: Config, events: seq<Event>, r: Run, e: Event) returns (longer: seq<Event>, r': Run)
    requires Legal(c, events) && r == After(c, events) && Enabled(r, e)
    ensures longer == events + [e] && Legal(c, longer) && r' == Next(c, r, e) && r' == After(c, longer)
  {
    longer, r' := events + [e], Next(c, r, e);
    assert longer[..|events|] == events;
  }

  // ---------------------------------------------------------------- the worst case

  /** Permits `from` to `to`: those below `older` are from before the half-open phase, the rest its probes. */
  ghost predicate Outstanding(permits: map<nat, Option<nat>>, from: nat, older: nat, to: nat) {
    forall i {:trigger i in permits} ::
      (i in permits <==> from <= i < to) && (i in permits ==> permits[i] == if i < older then None else Some(1))
  }

  /** `older` calls are admitted while the breaker is closed, and stay out. */
  lemma {:induction false} HoldOlder(c: Config, older: nat) returns (events: seq<Event>, r: Run)
    ensures Legal(c, events) && r == After(c, events) && r.phase == Closed(0) && r.epoch == 0
    ensures r.older == 0 && r.lateDrops == 0 && Outstanding(r.permits, 0, older, older)
  {
    if older == 0 {
      events, r := [], FRESH;
    } else {
      events, r := HoldOlder(c, older - 1);
      events, r := Extend(c, events, r, Ask(older - 1, 0));
    }
  }

  /** A call that is admitted by a closed breaker and fails. */
  lemma FailOne(c: Config, r: Run, permit: nat, r': Run, r'': Run)
    requires r.phase.Closed? && permit !in r.permits
    requires r' == Next(c, r, Ask(permit, 0)) && permit in r'.permits && r'' == Next(c, r', Settle(permit, Failure, 0))
    requires r.epoch == 0
    ensures r''.permits == r.permits && r''.epoch == 0
    ensures r''.phase == if r.phase.failures + 1 >= c.maxFailures then Open(0) else Closed(r.phase.failures + 1)
  {
    assert r'.permits == r.permits[permit := None];
  }

  /** Then further calls fail, until the breaker opens at instant 0. */
  lemma {:induction false} FailCalls(c: Config, older: nat, failed: nat) returns (events: seq<Event>, r: Run)
    requires Sound(c) && failed <= c.maxFailures
    ensures Legal(c, events) && r == After(c, events) && r.epoch == 0
    ensures r.phase == (if failed < c.maxFailures then Closed(failed) else Open(0))
    ensures Outstanding(r.permits, 0, older, older)
    decreases failed
  {
    if failed == 0 {
      events, r := HoldOlder(c, older);
    } else {
      events, r := FailCalls(c, older, failed - 1);
      events, r := FailNext(c, events, r, older);
    }
  }

  lemma FailNext(c: Config, before: seq<Event>, r: Run, permit: nat) returns (events: seq<Event>, r'': Run)
    requires Legal(c, before) && r == After(c, before) && r.phase.Closed? && permit !in r.permits && r.epoch == 0
    ensures Legal(c, events) && r'' == After(c, events) && r''.permits == r.permits && r''.epoch == 0
    ensures r''.phase == if r.phase.failures + 1 >= c.maxFailures then Open(0) else Closed(r.phase.failures + 1)
  {
    var r';
    events, r' := Extend(c, before, r, Ask(permit, 0));
    events, r'' := Extend(c, events, r', Settle(permit, Failure, 0));
    FailOne(c, r, permit, r', r'');
  }

  /** When its time is up, probes are admitted, up to the limit. */
  lemma {:induction false} AdmitProbes(c: Config, older: nat, probes: nat) returns (events: seq<Event>, r: Run)
    requires Sound(c) && 1 <= probes <= c.halfOpenMaxCalls
    ensures Legal(c, events) && r == After(c, events) && r.epoch == 1
    ensures r.older == 0 && r.lateDrops == 0
    ensures r.phase == HalfOpen(probes, 0) && Outstanding(r.permits, 0, older, older + probes)
    decreases probes
  {
    if probes == 1 {
      events, r := FailCalls(c, older, c.maxFailures);
    } else {
      events, r := AdmitProbes(c, older, probes - 1);
    }
    events, r := Extend(c, events, r, Ask(older + probes - 1, c.resetTimeout));
  }

  /** Every older permit that is dropped now lets one more probe in. */
  lemma {:induction false} DropOlder(c: Config, older: nat, dropped: nat) returns (events: seq<Event>, r: Run)
    requires Sound(c) && dropped <= older
    ensures Legal(c, events) && r == After(c, events) && r.epoch == 1
    ensures r.older == dropped && r.lateDrops == dropped
    ensures r.phase == HalfOpen(c.halfOpenMaxCalls, 0)
    ensures Outstanding(r.permits, dropped, older, older + c.halfOpenMaxCalls + dropped)
    decreases dropped
  {
    if dropped == 0 {
      events, r := AdmitProbes(c, older, c.halfOpenMaxCalls);
    } else {
      var to := older + c.halfOpenMaxCalls + dropped - 1;
      events, r := DropOlder(c, older, dropped - 1);
      events, r := SwapOne(c, events, r, older, dropped - 1, to);
    }
  }

  lemma SwapOne(c: Config, before: seq<Event>, r: Run, older: nat, n: nat, to: nat)
      returns (events: seq<Event>, r'': Run)
    requires Sound(c) && Legal(c, before) && r == After(c, before) && r.epoch == 1 && n < older < to
    requires r.phase == HalfOpen(c.halfOpenMaxCalls, 0) && Outstanding(r.permits, n, older, to)
    ensures Legal(c, events) && r'' == After(c, events) && r''.epoch == 1
    ensures r''.older == r.older + 1 && r''.lateDrops == r.lateDrops + 1
    ensures r''.phase == HalfOpen(c.halfOpenMaxCalls, 0) && Outstanding(r''.permits, n + 1, older, to + 1)
  {
    var r';
    assert n in r.permits && r.permits[n] == None;
    events, r' := Extend(c, before, r, Settle(n, Cancellation, c.resetTimeout));
    assert Outstanding(r'.permits, n + 1, older, to) && to !in r'.permits;
    events, r'' := Extend(c, events, r', Ask(to, c.resetTimeout));
  }

  lemma {:induction false} RangeSize(range: set<nat>, from: nat, end: nat)
    requires from <= end && forall i {:trigger i in range} :: i in range <==> from <= i < end
    ensures |range| == end - from
    decreases end
  {
    if from < end {
      RangeSize(range - {end - 1}, from, end - 1);
      assert end - 1 in range;
    } else {
      assert range == {};
    }
  }

  /**
   * The bound of `ProbesInFlight` is the exact worst case: for every limit and every number of
   * late drops, some run has the limit plus that many probes in flight.
   */
  lemma ProbeBoundIsReached(c: Config, older: nat) returns (events: seq<Event>)
    requires Sound(c)
    ensures Legal(c, events)
    ensures var r := After(c, events);
      && r.phase.HalfOpen? && r.older == older && r.lateDrops == older
      && |Probes(r)| == c.halfOpenMaxCalls + older
  {
    var r;
    events, r := DropOlder(c, older, older);
    var to := older + c.halfOpenMaxCalls + older;
    forall i ensures i in Probes(r) <==> older <= i < to {
      assert i in r.permits <==> older <= i < to;
    }
    RangeSize(Probes(r), older, to);
  }

  /** With a limit of one, a single older permit dropped late lets a second probe in. */
  lemma LateDropAdmitsSecondProbe() returns (events: seq<Event>)
    ensures Legal(Config(1, 10, 1), events)
    ensures var r := After(Config(1, 10, 1), events); r.phase.HalfOpen? && r.older == 1 && |Probes(r)| == 2
  {
    events := ProbeBoundIsReached(Config(1, 10, 1), 1);
  }

  // ---------------------------------------------------------------- the breaker and its permits

  lemma {:induction false} UnusedNumber(used: set<nat>) returns (n: nat)
    ensures forall u :: u in used ==> u < n
  {
    n := 0;
    if used != {} {
      var u :| u in used;
      n := UnusedNumber(used - {u});
      n := if n > u then n else u + 1;
      assert forall v :: v in used ==> v == u || v in used - {u};
    }
  }

  class CircuitBreaker {
    const config: Config
    var phase: Phase
    var successes: nat
    var failures: nat
    var rejections: nat
    var cancellations: nat
    /** The calls so far and what became of them, for the statements about runs. */
    ghost var trace: seq<Event>

    ghost predicate Valid()
      reads this
    {
      && Sound(config) && Legal(config, trace)
      && var r := After(config, trace);
        && phase == r.phase && rejections == r.rejections
        && successes == r.successes && failures == r.failures && cancellations == r.cancellations
    }

    constructor (config: Config)
      requires Sound(config)
      ensures this.config == config && Valid() && trace == [] && phase == Closed(0)
    {
      this.config, phase := config, Closed(0);
      successes, failures, rejections, cancellations, trace := 0, 0, 0, 0, [];
    }

    method BeforeConsecutive(now: nat) returns (admitted: bool)
      modifies `phase
      ensures admitted <==> Admits(config, old(phase), now)
      ensures phase == Asked(config, old(phase), now)
    {
      if phase.Open? {
        if Elapsed(phase.openedAt, now) < config.resetTimeout {
          return false;
        }
        phase := HalfOpen(0, 0);
      }
      if phase.HalfOpen? {
        if phase.attempts >= config.halfOpenMaxCalls {
          return false;
        }
        phase := HalfOpen(phase.attempts + 1, phase.successes);
      }
      admitted := true;
    }

    method RecordConsecutive(outcome: Outcome, now: nat)
      modifies `phase
      ensures phase == Settled(config, old(phase), outcome, now)
    {
      match outcome
      case Success =>
        if phase.Closed? {
          phase := Closed(0);
        } else if phase.HalfOpen? {
          phase := HalfOpen(phase.attempts, phase.successes + 1);
          if phase.successes == config.halfOpenMaxCalls {
            phase := Closed(0);
          }
        }
      case Failure =>
        if phase.Closed? {
          phase := Closed(phase.failures + 1);
          if phase.failures >= config.maxFailures {
            phase := Open(now);
          }
        } else if phase.HalfOpen? {
          phase := Open(now);
        }
      case Cancellation =>
        if phase.HalfOpen? {
          phase := HalfOpen(if phase.attempts == 0 then 0 else phase.attempts - 1, phase.successes);
        }
    }

    method BeforeCall(now: nat) returns (admitted: bool)
      modifies `phase, `rejections
      ensures admitted <==> Admits(config, old(phase), now)
      ensures phase == Asked(config, old(phase), now)
      ensures rejections == old(rejections) + if admitted then 0 else 1
    {
      admitted := BeforeConsecutive(now);
      if !admitted {
        rejections := rejections + 1;
      }
    }

    /** A permit for an admitted call, `null` for a rejected one; either way the call joins the run. */
    method Acquire(now: nat) returns (permit: Permit?)
      requires Valid()
      modifies this
      ensures Valid() && |trace| == |old(trace)| + 1 && old(trace) <= trace && trace[|trace| - 1].Ask?
      ensures permit != null <==> Admits(config, old(phase), now)
      ensures permit != null ==> fresh(permit) && permit.breaker == this && permit.Valid() && !permit.finished
      ensures permit != null ==> trace == old(trace) + [Ask(permit.id, now)]
    {
      ghost var id := UnusedNumber(After(config, trace).permits.Keys);
      ghost var longer, r' := Extend(config, trace, After(config, trace), Ask(id, now));
      var admitted := BeforeCall(now);
      trace := longer;
      permit := null;
      if admitted {
        permit := new Permit(this, id);
      }
    }

    method RecordOutcome(outcome: Outcome, now: nat)
      modifies `phase, `successes, `failures, `cancellations
      ensures phase == Settled(config, old(phase), outcome, now)
      ensures successes == old(successes) + if outcome.Success? then 1 else 0
      ensures failures == old(failures) + if outcome.Failure? then 1 else 0
      ensures cancellations == old(cancellations) + if outcome.Cancellation? then 1 else 0
    {
      match outcome {
        case Success => successes := successes + 1;
        case Failure => failures := failures + 1;
        case Cancellation => cancellations := cancellations + 1;
      }
      RecordConsecutive(outcome, now);
    }

    /** The outcome of an outstanding permit, as a step of the run. */
    method Settle(ghost id: nat, outcome: Outcome, now: nat)
      requires Valid() && id in After(config, trace).permits
      modifies this
      ensures Valid() && trace == old(trace) + [Event.Settle(id, outcome, now)]
      ensures id !in After(config, trace).permits
    {
      ghost var longer, r' := Extend(config, trace, After(config, trace), Event.Settle(id, outcome, now));
      RecordOutcome(outcome, now);
      trace := longer;
    }
  }

  /**
   * An admitted call, reported once: by the caller, or as a cancellation when it is dropped first.
   * The flag is what makes `Settle` possible exactly once: while it is down, the permit is outstanding.
   */
  class Permit {
    const breaker: CircuitBreaker
    ghost const id: nat
    var finished: bool

    ghost predicate Valid()
      reads this, breaker
    {
      breaker.Valid() && (!finished <==> id in After(breaker.config, breaker.trace).permits)
    }

    constructor (breaker: CircuitBreaker, ghost id: nat)
      ensures this.breaker == breaker && this.id == id && !finished
    {
      this.breaker, this.id, finished := breaker, id, false;
    }

    /** Reports the outcome and gives the permit up, which drops it. */
    method FinishWithOutcome(outcome: Outcome, now: nat)
      requires Valid() && !finished
      modifies this, breaker
      ensures Valid() && finished
      ensures breaker.trace == old(breaker.trace) + [Settle(id, outcome, now)]
      ensures breaker.phase == Settled(breaker.config, old(breaker.phase), outcome, now)
      ensures breaker.successes == old(breaker.successes) + if outcome.Success? then 1 else 0
      ensures breaker.failures == old(breaker.failures) + if outcome.Failure? then 1 else 0
      ensures breaker.cancellations == old(breaker.cancellations) + if outcome.Cancellation? then 1 else 0
      ensures breaker.rejections == old(breaker.rejections)
    {
      breaker.Settle(id, outcome, now);
      finished := true;
      Drop(now);
    }

    /** The end of the permit. */
    method Drop(now: nat)
      requires Valid()
      modifies breaker
      ensures breaker.Valid() && id !in After(breaker.config, breaker.trace).permits
      ensures breaker.trace == old(breaker.trace) + if finished then [] else [Settle(id, Cancellation, now)]
      ensures finished ==> breaker.phase == old(breaker.phase) && breaker.cancellations == old(breaker.cancellations)
      ensures !finished ==> breaker.phase == Settled(breaker.config, old(breaker.phase), Cancellation, now)
      ensures !finished ==> breaker.cancellations == old(breaker.cancellations) + 1
      ensures breaker.successes == old(breaker.successes) && breaker.failures == old(breaker.failures)
      ensures breaker.rejections == old(breaker.rejections)
    {
      if !finished {
        breaker.Settle(id, Cancellation, now);
      }
    }
  }
}
