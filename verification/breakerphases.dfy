/**
 * When the consecutive breaker opens, wakes, closes and admits, stated on what was asked and settled:
 * the counts below are taken from the events and from which phase they fell into, not from the counters
 * that the breaker keeps.
 */
module BreakerPhases {
  import opened ConsecutiveBreakers

  function PhaseAfter(c: Config, events: seq<Event>): Phase
    requires Legal(c, events)
  {
    After(c, events).phase
  }

  /** The failures settled since the last success, or since the breaker closed. */
  function FailuresInARow(c: Config, events: seq<Event>): nat
    requires Legal(c, events)
  {
    if events == [] || !PhaseAfter(c, events).Closed? then 0
    else
      var before, e := events[..|events| - 1], events[|events| - 1];
      if e.Ask? || e.outcome.Cancellation? then FailuresInARow(c, before)
      else if e.outcome.Success? then 0
      else FailuresInARow(c, before) + 1
  }

  /** The successes settled in the present half-open phase, late ones included. */
  function SuccessesInPhase(c: Config, events: seq<Event>): nat
    requires Legal(c, events)
  {
    if events == [] || !PhaseAfter(c, events).HalfOpen? then 0
    else
      var before, e := events[..|events| - 1], events[|events| - 1];
      SuccessesInPhase(c, before) + if e.Settle? && e.outcome.Success? then 1 else 0
  }

  /** The slots taken in the present half-open phase: one for each call admitted, less one for each dropped. */
  function SlotsTaken(c: Config, events: seq<Event>): nat
    requires Legal(c, events)
  {
    if events == [] || !PhaseAfter(c, events).HalfOpen? then 0
    else
      var before, e := events[..|events| - 1], events[|events| - 1];
      var taken := SlotsTaken(c, before);
      if e.Ask? then if e.permit in After(c, events).permits then taken + 1 else taken
      else if e.outcome.Cancellation? && taken > 0 then taken - 1 else taken
  }

  /** The instant of the failure that opened the breaker. */
  function OpenedAt(c: Config, events: seq<Event>): nat
    requires Legal(c, events)
  {
    if events == [] then 0
    else
      var before, e := events[..|events| - 1], events[|events| - 1];
      if PhaseAfter(c, before).Open? then OpenedAt(c, before) else e.now
  }

  ghost predicate CountsAreKept(c: Config, events: seq<Event>)
    requires Legal(c, events)
  {
    var phase := PhaseAfter(c, events);
    && (phase.Closed? ==> phase.failures == FailuresInARow(c, events) < c.maxFailures)
    && (phase.Open? ==> phase.openedAt == OpenedAt(c, events))
    && (phase.HalfOpen? ==> phase.successes == SuccessesInPhase(c, events) < c.halfOpenMaxCalls)
    && (phase.HalfOpen? ==> phase.attempts == SlotsTaken(c, events) <= c.halfOpenMaxCalls)
  }

  /** The breaker's own counters are these counts. */
  lemma {:induction false} CountersAreTheCounts(c: Config, events: seq<Event>)
    requires Sound(c) && Legal(c, events)
    ensures CountsAreKept(c, events)
  {
    if events != [] {
      var before, e := events[..|events| - 1], events[|events| - 1];
      CountersAreTheCounts(c, before);
      EveryRunKeepsInv(c, events);
      if e.Ask? {
        AskCounts(c, before, e, events);
      } else {
        SettleCounts(c, before, e, events);
      }
    }
  }

  lemma AskCounts(c: Config, before: seq<Event>, e: Event, events: seq<Event>)
    requires Sound(c) && Legal(c, events) && events == before + [e] && e.Ask?
    requires Legal(c, before) && CountsAreKept(c, before)
    ensures CountsAreKept(c, events)
  {
    assert events[..|events| - 1] == before;
  }

  lemma SettleCounts(c: Config, before: seq<Event>, e: Event, events: seq<Event>)
    requires Sound(c) && Legal(c, events) && events == before + [e] && e.Settle?
    requires Legal(c, before) && CountsAreKept(c, before)
    ensures CountsAreKept(c, events)
  {
    assert events[..|events| - 1] == before;
  }

  lemma OneMore(c: Config, events: seq<Event>, e: Event)
    requires Sound(c) && Legal(c, events + [e])
    ensures Legal(c, events) && Enabled(After(c, events), e) && CountsAreKept(c, events)
    ensures After(c, events + [e]) == Next(c, After(c, events), e)
  {
    assert (events + [e])[..|events|] == events;
    CountersAreTheCounts(c, events);
  }

  /** A closed breaker opens exactly on the failure that makes `maxFailures` in a row. */
  lemma ClosedOpensIff(c: Config, events: seq<Event>, e: Event)
    requires Sound(c) && Legal(c, events + [e]) && Legal(c, events) && PhaseAfter(c, events).Closed?
    ensures PhaseAfter(c, events + [e]).Open? <==>
      e.Settle? && e.outcome.Failure? && FailuresInARow(c, events) + 1 == c.maxFailures
    ensures !PhaseAfter(c, events + [e]).HalfOpen?
  {
    OneMore(c, events, e);
  }

  /** An open breaker stays open until the first call at `resetTimeout` or more after the failure that opened it. */
  lemma OpenWakesIff(c: Config, events: seq<Event>, e: Event)
    requires Sound(c) && Legal(c, events + [e]) && Legal(c, events) && PhaseAfter(c, events).Open?
    ensures PhaseAfter(c, events + [e]).HalfOpen? <==> e.Ask? && OpenedAt(c, events) + c.resetTimeout <= e.now
    ensures !PhaseAfter(c, events + [e]).Closed?
  {
    OneMore(c, events, e);
  }

  /** A half-open breaker closes exactly on the success that makes `halfOpenMaxCalls`, and opens on any failure. */
  lemma HalfOpenEndsIff(c: Config, events: seq<Event>, e: Event)
    requires Sound(c) && Legal(c, events + [e]) && Legal(c, events) && PhaseAfter(c, events).HalfOpen?
    ensures PhaseAfter(c, events + [e]).Closed? <==>
      e.Settle? && e.outcome.Success? && SuccessesInPhase(c, events) + 1 == c.halfOpenMaxCalls
    ensures PhaseAfter(c, events + [e]).Open? <==> e.Settle? && e.outcome.Failure?
  {
    OneMore(c, events, e);
  }

  /** Which calls are admitted. */
  lemma AdmittedIff(c: Config, events: seq<Event>, permit: nat, now: nat)
    requires Sound(c) && Legal(c, events + [Ask(permit, now)]) && Legal(c, events)
    ensures var phase, r, r' := PhaseAfter(c, events), After(c, events), After(c, events + [Ask(permit, now)]);
      && (permit in r'.permits <==>
            || phase.Closed?
            || (phase.Open? && OpenedAt(c, events) + c.resetTimeout <= now)
            || (phase.HalfOpen? && SlotsTaken(c, events) < c.halfOpenMaxCalls))
      && r'.rejections == r.rejections + if permit in r'.permits then 0 else 1
  {
    OneMore(c, events, Ask(permit, now));
  }
}
