/** The rolling policy: probabilistic rejection from recent history, with a bound on rejections in a row. */
module RollingBreakers {
  import opened Counters
  import opened Sequences
  import opened Windows
  import opened ConsecutiveBreakers

  datatype Tally = Tally(accepted: nat, total: nat)

  const NO_CALLS := Tally(0, 0)

  function With(t: Tally, accepted: bool): Tally {
    Tally(if accepted then SaturatingAdd(t.accepted, 1) else t.accepted, SaturatingAdd(t.total, 1))
  }

  function Plus(a: Tally, b: Tally): Tally {
    Tally(SaturatingAdd(a.accepted, b.accepted), SaturatingAdd(a.total, b.total))
  }

  function Accepted(log: seq<Observation<bool>>): nat {
    if log == [] then 0 else Accepted(log[..|log| - 1]) + if log[|log| - 1].value then 1 else 0
  }

  function Tallied(log: seq<Observation<bool>>): Tally {
    if log == [] then NO_CALLS else With(Tallied(log[..|log| - 1]), log[|log| - 1].value)
  }

  /** A tally is the true counts, capped where the counters saturate. */
  lemma {:induction false} TallyMeaning(log: seq<Observation<bool>>)
    ensures Tallied(log) == Tally(Capped(Accepted(log)), Capped(|log|))
    ensures Accepted(log) <= |log|
  {
    if log != [] {
      TallyMeaning(log[..|log| - 1]);
    }
  }

  lemma WithAfterPlus(a: Tally, b: Tally, accepted: bool)
    ensures With(Plus(a, b), accepted) == Plus(a, With(b, accepted))
  {
  }

  lemma {:induction false} TalliedConcat(a: seq<Observation<bool>>, b: seq<Observation<bool>>)
    ensures Tallied(a + b) == Plus(Tallied(a), Tallied(b))
  {
    if b == [] {
      assert a + b == a;
      TallyMeaning(a);
    } else {
      assert (a + b)[..|a + b| - 1] == a + b[..|b| - 1];
      TalliedConcat(a, b[..|b| - 1]);
      WithAfterPlus(Tallied(a), Tallied(b[..|b| - 1]), b[|b| - 1].value);
    }
  }

  function Summed(buckets: seq<Tally>): Tally {
    if buckets == [] then NO_CALLS else Plus(Summed(buckets[..|buckets| - 1]), buckets[|buckets| - 1])
  }

  lemma {:induction false} SummedTallies(slots: seq<seq<Observation<bool>>>)
    ensures Summed(Map(Tallied, slots)) == Tallied(Flatten(slots))
  {
    if slots != [] {
      var front, last := slots[..|slots| - 1], slots[|slots| - 1];
      assert slots == front + [last];
      MapSize(Tallied, front);
      assert Map(Tallied, slots)[..|slots| - 1] == Map(Tallied, front);
      SummedTallies(front);
      FlattenAppend(front, last);
      TalliedConcat(Flatten(front), last);
    }
  }

  datatype Policy = Policy(sensitivity: real, minimumRequests: nat, probeInterval: nat)

  predicate SoundPolicy(p: Policy) {
    0.0 < p.sensitivity && 0 < p.probeInterval
  }

  function DropRatio(p: Policy, t: Tally): real {
    var unprotected := if t.total >= p.minimumRequests then t.total - p.minimumRequests else 0;
    var ratio := (unprotected as real - p.sensitivity * t.accepted as real) / (t.total as real + 1.0);
    if ratio < 0.0 then 0.0 else ratio
  }

  /** The ratio is a probability below one, and it is zero while enough calls are accepted. */
  lemma RatioBounds(p: Policy, t: Tally)
    requires SoundPolicy(p)
    ensures 0.0 <= DropRatio(p, t) < 1.0
    ensures DropRatio(p, t) > 0.0 <==> t.total as real - p.minimumRequests as real > p.sensitivity * t.accepted as real
  {
  }

  /** The share of the calls, one more counted, that exceed the protected and the weighted accepted ones. */
  lemma RatioIsTheExcessShare(p: Policy, t: Tally)
    requires SoundPolicy(p)
    ensures var excess := t.total as real - p.minimumRequests as real - p.sensitivity * t.accepted as real;
      DropRatio(p, t) * (t.total as real + 1.0) == if excess > 0.0 then excess else 0.0
  {
    var excess := t.total as real - p.minimumRequests as real - p.sensitivity * t.accepted as real;
    RatioBounds(p, t);
    assert p.sensitivity * t.accepted as real >= 0.0;
    if excess > 0.0 {
      QuotientTimes(excess, t.total as real + 1.0);
    }
  }

  lemma QuotientTimes(a: real, b: real)
    requires b > 0.0
    ensures a / b * b == a
  {
  }

  // ---------------------------------------------------------------- admission decisions

  /** `ratio` is what the history says at the moment, `unit` the random number drawn from [0, 1). */
  datatype Decision = Decision(ratio: real, unit: real)

  /** The counter after a decision, and whether the call is dropped. */
  function Counted(sequence: nat, d: Decision): nat {
    if d.ratio <= 0.0 then sequence else sequence + 1
  }

  predicate Drops(p: Policy, sequence: nat, d: Decision)
    requires 0 < p.probeInterval
  {
    d.ratio > 0.0 && (sequence + 1) % p.probeInterval != 0 && d.unit < d.ratio
  }

  function Sequence(decisions: seq<Decision>): nat {
    if decisions == [] then 0 else Counted(Sequence(decisions[..|decisions| - 1]), decisions[|decisions| - 1])
  }

  predicate DropsAt(p: Policy, decisions: seq<Decision>, i: nat)
    requires 0 < p.probeInterval && i < |decisions|
  {
    Drops(p, Sequence(decisions[..i]), decisions[i])
  }

  /** The decisions so far that the history cast doubt on. */
  function Doubtful(decisions: seq<Decision>, n: nat): set<nat>
    requires n <= |decisions|
  {
    set i: nat | i < n && decisions[i].ratio > 0.0
  }

  lemma {:induction false} SequenceCountsDoubtful(decisions: seq<Decision>)
    ensures Sequence(decisions) == |Doubtful(decisions, |decisions|)|
  {
    if decisions == [] {
      assert Doubtful(decisions, 0) == {};
    } else {
      var last := |decisions| - 1;
      SequenceCountsDoubtful(decisions[..last]);
      assert Doubtful(decisions[..last], last) == Doubtful(decisions, last);
      assert Doubtful(decisions, last + 1) ==
        Doubtful(decisions, last) + if decisions[last].ratio > 0.0 then {last} else {};
    }
  }

  /**
   * Exactly which calls are dropped: those whose ratio is positive and above the number drawn, except
   * every `probeInterval`-th of the calls with a positive ratio.
   */
  lemma DroppedIff(p: Policy, decisions: seq<Decision>, i: nat)
    requires 0 < p.probeInterval && i < |decisions|
    ensures DropsAt(p, decisions, i) <==>
      && 0.0 < decisions[i].ratio && decisions[i].unit < decisions[i].ratio
      && |Doubtful(decisions, i + 1)| % p.probeInterval != 0
  {
    SequenceCountsDoubtful(decisions[..i]);
    assert Doubtful(decisions[..i], i) == Doubtful(decisions, i);
    assert Doubtful(decisions, i + 1) == Doubtful(decisions, i) + if decisions[i].ratio > 0.0 then {i} else {};
  }

  /** If the last `streak` decisions were all drops, the counter has advanced that far past a multiple. */
  lemma {:induction false} StreakBelowCounter(p: Policy, decisions: seq<Decision>, streak: nat)
    requires 0 < p.probeInterval && streak <= |decisions|
    requires forall i :: |decisions| - streak <= i < |decisions| ==> DropsAt(p, decisions, i)
    ensures streak <= Sequence(decisions) % p.probeInterval
  {
    if streak != 0 {
      var last := |decisions| - 1;
      var before := decisions[..last];
      assert DropsAt(p, decisions, last);
      forall i | last - (streak - 1) <= i < last ensures DropsAt(p, before, i) {
        assert DropsAt(p, decisions, i);
        assert before[..i] == decisions[..i];
      }
      StreakBelowCounter(p, before, streak - 1);
      CounterAfterDrop(p, Sequence(before), decisions[last]);
    }
  }

  lemma CounterAfterDrop(p: Policy, sequence: nat, d: Decision)
    requires 0 < p.probeInterval && Drops(p, sequence, d)
    ensures Counted(sequence, d) % p.probeInterval == sequence % p.probeInterval + 1
  {
    NextRemainder(sequence, p.probeInterval);
  }

  lemma NextRemainder(a: nat, m: nat)
    requires 0 < m && (a + 1) % m != 0
    ensures (a + 1) % m == a % m + 1
  {
    var q, r := a / m, a % m;
    assert a == m * q + r;
    if r + 1 == m {
      assert a + 1 == m * (q + 1);
      RemainderIs(a + 1, m, q + 1, 0);
    } else {
      RemainderIs(a + 1, m, q, r + 1);
    }
  }

  lemma RemainderIs(a: nat, m: nat, q: nat, r: nat)
    requires 0 < m && r < m && a == m * q + r
    ensures a % m == r
  {
    QuotientIs(m, a, q);
    assert a == m * (a / m) + a % m;
  }

  /**
   * Bounded rejection: among any `probeInterval` decisions in a row at least one admits the call,
   * whatever the history said and whatever was drawn.
   */
  lemma SomeProbeGetsThrough(p: Policy, decisions: seq<Decision>, from: nat)
    requires 0 < p.probeInterval && from + p.probeInterval <= |decisions|
    ensures exists i :: from <= i < from + p.probeInterval && !DropsAt(p, decisions, i)
  {
    var window := decisions[..from + p.probeInterval];
    if forall i :: from <= i < from + p.probeInterval ==> DropsAt(p, decisions, i) {
      forall i | from <= i < |window| ensures DropsAt(p, window, i) {
        assert DropsAt(p, decisions, i);
        assert window[..i] == decisions[..i];
      }
      StreakBelowCounter(p, window, p.probeInterval);
      assert false;
    }
  }

  // ---------------------------------------------------------------- the breaker

  lemma RecordTally(slots: seq<seq<Observation<bool>>>, x: Observation<bool>)
    requires slots != []
    ensures var last, buckets := |slots| - 1, Map(Tallied, slots);
      && |buckets| == |slots|
      && buckets[last := With(buckets[last], x.value)] == Map(Tallied, slots[last := slots[last] + [x]])
  {
    var last := |slots| - 1;
    var longer := slots[last] + [x];
    assert longer[..|longer| - 1] == slots[last];
    MapSize(Tallied, slots);
    MapSize(Tallied, slots[..last]);
    assert slots[last := longer][..last] == slots[..last];
  }

  /** Recording keeps the counters in step with the bookkeeping of the window. */
  lemma RecordKeeps(n: nat, width: nat, started: nat, slots: seq<seq<Observation<bool>>>, log: seq<Observation<bool>>,
      dropped: seq<Observation<bool>>, x: Observation<bool>, buckets: seq<Tally>,
      recorded: seq<seq<Observation<bool>>>, counted: seq<Tally>)
    requires 0 < n && 0 < width && Accounts(n, width, Window(started, slots), log, dropped)
    requires started <= x.at < started + width && slots != []
    requires buckets == Map(Tallied, slots) && |buckets| == |slots|
    requires recorded == Recorded(Window(started, slots), x).buckets
    requires counted == buckets[|buckets| - 1 := With(buckets[|buckets| - 1], x.value)]
    ensures counted == Map(Tallied, recorded)
    ensures Accounts(n, width, Window(started, recorded), log + [x], dropped)
  {
    RecordTally(slots, x);
    RecordAccounts(n, width, Window(started, slots), log, dropped, x);
  }

  lemma SummedIsRecent(n: nat, width: nat, s: Window<seq<Observation<bool>>>, log: seq<Observation<bool>>,
      dropped: seq<Observation<bool>>)
    requires 0 < width && Accounts(n, width, s, log, dropped)
    ensures var recent := Since(log, s.started - (n - 1) * width);
      Summed(Map(Tallied, s.buckets)) == Tally(Capped(Accepted(recent)), Capped(|recent|))
  {
    var held := Flatten(s.buckets);
    assert held == Since(log, s.started - (n - 1) * width) by {
      SlotsAreTheRecent(n, width, s, log, dropped);
    }
    SummedTallies(s.buckets);
    TallyMeaning(held);
  }

  class RollingBreaker {
    const policy: Policy
    const bucketCount: nat
    const bucketWidth: nat
    var currentStarted: nat
    var buckets: seq<Tally>
    var dropSequence: nat
    /** Every recorded success or failure, and how the buckets split them. */
    ghost var log: seq<Observation<bool>>
    ghost var slots: seq<seq<Observation<bool>>>
    ghost var dropped: seq<Observation<bool>>
    /** The admission decisions so far. */
    ghost var decisions: seq<Decision>

    ghost predicate Valid()
      reads this
    {
      && SoundPolicy(policy) && 0 < bucketCount && 0 < bucketWidth
      && buckets == Map(Tallied, slots)
      && Accounts(bucketCount, bucketWidth, Window(currentStarted, slots), log, dropped)
      && dropSequence == Sequence(decisions)
    }

    /** What the outcomes in the window add up to, as the bucket counters can hold it. */
    ghost function Recent(): Tally
      reads this
      requires 0 < bucketCount
    {
      var recent := Since(log, currentStarted - (bucketCount - 1) * bucketWidth);
      Tally(Capped(Accepted(recent)), Capped(|recent|))
    }

    constructor (policy: Policy, bucketCount: nat, bucketWidth: nat, now: nat)
      requires SoundPolicy(policy) && 0 < bucketCount && 0 < bucketWidth
      ensures Valid() && log == [] && decisions == [] && currentStarted == now
      ensures this.policy == policy && this.bucketCount == bucketCount && this.bucketWidth == bucketWidth
    {
      this.policy, this.bucketCount, this.bucketWidth := policy, bucketCount, bucketWidth;
      currentStarted, buckets, dropSequence := now, [NO_CALLS], 0;
      log, slots, dropped, decisions := [], [[]], [], [];
      new;
      assert slots[0] == [] && Flatten(slots) == [];
      assert Tallied(slots[0]) == NO_CALLS;
    }

    method Rotate(now: nat)
      requires 0 < bucketCount && 0 < bucketWidth
      modifies `buckets, `currentStarted
      ensures Window(currentStarted, buckets) ==
        Rotated(bucketCount, bucketWidth, NO_CALLS, Window(old(currentStarted), old(buckets)), now)
    {
      var elapsedBuckets := Elapsed(currentStarted, now) / bucketWidth;
      if elapsedBuckets == 0 {
        return;
      }
      if elapsedBuckets >= bucketCount {
        buckets := [NO_CALLS];
        currentStarted := now;
        return;
      }
      PushMany(elapsedBuckets);
      currentStarted := currentStarted + bucketWidth * elapsedBuckets;
    }

    method PushMany(times: nat)
      modifies `buckets
      ensures buckets == Shifted(bucketCount, NO_CALLS, old(buckets), times)
    {
      for n := 0 to times
        invariant Shifted(bucketCount, NO_CALLS, buckets, times - n)
          == Shifted(bucketCount, NO_CALLS, old(buckets), times)
      {
        buckets := buckets + [NO_CALLS];
        if |buckets| > bucketCount {
          buckets := buckets[1..];
        }
      }
    }

    method Advance(now: nat)
      requires Valid() && currentStarted <= now
      modifies `buckets, `currentStarted, `slots, `dropped
      ensures Valid()
      ensures now - bucketWidth < currentStarted <= now
    {
      ghost var was := Window(currentStarted, slots);
      ghost var kept := RotateAccounts(bucketCount, bucketWidth, was, log, dropped, now);
      RotatedMap(Tallied, bucketCount, bucketWidth, [], was, now);
      Rotate(now);
      slots, dropped := Rotated(bucketCount, bucketWidth, [], was, now).buckets, kept;
    }

    /** Successes and failures enter the history; cancellations do not. */
    method Record(outcome: Outcome, now: nat)
      requires Valid() && currentStarted <= now
      modifies this
      ensures Valid() && decisions == old(decisions)
      ensures log == if outcome.Cancellation? then old(log) else old(log) + [Observation(now, outcome.Success?)]
    {
      if outcome.Cancellation? {
        return;
      }
      Advance(now);
      ghost var x := Observation(now, outcome.Success?);
      MapSize(Tallied, slots);
      ghost var recorded := Recorded(Window(currentStarted, slots), x).buckets;
      var last := |buckets| - 1;
      ghost var was := buckets;
      buckets := buckets[last := With(buckets[last], outcome.Success?)];
      RecordKeeps(bucketCount, bucketWidth, currentStarted, slots, log, dropped, x, was, recorded, buckets);
      slots, log := recorded, log + [x];
    }

    method Fold() returns (sum: Tally)
      ensures sum == Summed(buckets)
    {
      sum := NO_CALLS;
      for n := 0 to |buckets|
        invariant sum == Summed(buckets[..n])
      {
        assert buckets[..n + 1][..n] == buckets[..n];
        sum := Plus(sum, buckets[n]);
      }
      assert buckets[..|buckets|] == buckets;
    }

    /** The counts of exactly the outcomes in the window, and the drop ratio they give. */
    method History(now: nat) returns (tally: Tally, ratio: real)
      requires Valid() && currentStarted <= now
      modifies `buckets, `currentStarted, `slots, `dropped
      ensures Valid() && now - bucketWidth < currentStarted <= now
      ensures tally == Recent()
      ensures ratio == DropRatio(policy, tally) && 0.0 <= ratio < 1.0
    {
      Advance(now);
      assert Summed(buckets) == Recent() by {
        SummedIsRecent(bucketCount, bucketWidth, Window(currentStarted, slots), log, dropped);
      }
      tally := Fold();
      ratio := DropRatio(policy, tally);
      RatioBounds(policy, tally);
    }

    /** The decision itself, once the ratio is known. */
    method Decide(ratio: real, unit: real) returns (drop: bool)
      requires SoundPolicy(policy) && dropSequence == Sequence(decisions)
      modifies `dropSequence, `decisions
      ensures dropSequence == Sequence(decisions) && decisions == old(decisions) + [Decision(ratio, unit)]
      ensures drop <==> DropsAt(policy, decisions, |old(decisions)|)
    {
      ghost var d := Decision(ratio, unit);
      assert (decisions + [d])[..|decisions|] == decisions;
      decisions := decisions + [d];
      if ratio <= 0.0 {
        return false;
      }
      dropSequence := dropSequence + 1;
      if dropSequence % policy.probeInterval == 0 {
        return false;
      }
      drop := unit < ratio;
    }

    /** The call is dropped exactly when the policy says so of what the window holds now. */
    method ShouldDrop(unit: real, now: nat) returns (drop: bool)
      requires Valid() && currentStarted <= now && 0.0 <= unit < 1.0
      modifies this
      ensures Valid() && log == old(log)
      ensures now - bucketWidth < currentStarted <= now
      ensures decisions == old(decisions) + [Decision(DropRatio(policy, Recent()), unit)]
      ensures drop <==> DropsAt(policy, decisions, |old(decisions)|)
    {
      var tally, ratio := History(now);
      drop := Decide(ratio, unit);
    }
  }
}
