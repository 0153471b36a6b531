/**
 * The token bucket of core/src/limit.rs, over the reals: instants are seconds, tokens may be
 * fractions, and nothing is rounded.
 */
module TokenBuckets {
  datatype Config = Config(rate: nat, burst: nat)

  predicate Sound(c: Config) {
    0 < c.rate && 0 < c.burst
  }

  datatype Bucket = Bucket(available: real, lastRefill: real)

  datatype Decision = Allowed | HitQuota | OverQuota(retryAfter: real)

  /** Stands for the longest duration there is: no waiting helps. */
  const NEVER := -1.0

  /** What the rate yields in a span of time: their product, by repeated addition to keep proofs linear. */
  function Yield(rate: nat, span: real): real {
    if rate == 0 then 0.0 else Yield(rate - 1, span) + span
  }

  lemma {:induction false} YieldIsProduct(rate: nat, span: real)
    ensures Yield(rate, span) == rate as real * span
  {
    if rate != 0 {
      YieldIsProduct(rate - 1, span);
      assert rate as real == (rate - 1) as real + 1.0;
    }
  }

  lemma {:induction false} YieldAdds(rate: nat, a: real, b: real)
    ensures Yield(rate, a + b) == Yield(rate, a) + Yield(rate, b)
  {
    if rate != 0 {
      YieldAdds(rate - 1, a, b);
    }
  }

  lemma {:induction false} YieldSign(rate: nat, span: real)
    ensures span >= 0.0 ==> Yield(rate, span) >= 0.0
    ensures span == 0.0 ==> Yield(rate, span) == 0.0
  {
    if rate != 0 {
      YieldSign(rate - 1, span);
    }
  }

  function Elapsed(since: real, now: real): real {
    if now >= since then now - since else 0.0
  }

  function Refilled(c: Config, b: Bucket, now: real): Bucket {
    var filled := b.available + Yield(c.rate, Elapsed(b.lastRefill, now));
    Bucket(if filled < c.burst as real then filled else c.burst as real, now)
  }

  predicate Grants(c: Config, b: Bucket, permits: nat, now: real) {
    permits <= c.burst && Refilled(c, b, now).available >= permits as real
  }

  /** Asking for more than the bucket can ever hold does not touch it. */
  function Taken(c: Config, b: Bucket, permits: nat, now: real): Bucket {
    if permits > c.burst then b
    else
      var r := Refilled(c, b, now);
      if Grants(c, b, permits, now) then Bucket(r.available - permits as real, now) else r
  }

  function Decided(c: Config, b: Bucket, permits: nat, now: real): Decision
    requires 0 < c.rate
  {
    if permits > c.burst then OverQuota(NEVER)
    else if Grants(c, b, permits, now) then if Taken(c, b, permits, now).available < 1.0 then HitQuota else Allowed
    else OverQuota((permits as real - Refilled(c, b, now).available) / c.rate as real)
  }

  /**
   * The retry time is exact. After a refusal, and if nobody else takes in between, the same request
   * is granted at every delay from the reported one on and at none before it.
   */
  lemma RetryAfterIsExact(c: Config, b: Bucket, permits: nat, now: real, delay: real)
    requires Sound(c) && permits <= c.burst && delay >= 0.0 && !Grants(c, b, permits, now)
    ensures Decided(c, b, permits, now).OverQuota?
    ensures Grants(c, Taken(c, b, permits, now), permits, now + delay)
       <==> delay >= Decided(c, b, permits, now).retryAfter
  {
    var missing, rate := permits as real - Refilled(c, b, now).available, c.rate as real;
    YieldIsProduct(c.rate, delay);
    DelayCovers(missing, rate, delay);
  }

  lemma DelayCovers(missing: real, rate: real, delay: real)
    requires rate > 0.0
    ensures delay >= missing / rate <==> rate * delay >= missing
  {
    var d := missing / rate;
    assert d * rate == missing;
    if delay >= d {
      assert (delay - d) * rate >= 0.0;
    } else {
      assert (d - delay) * rate > 0.0;
    }
  }

  /** `HitQuota` says that the bucket was emptied: at the same instant not even one more permit would be granted. */
  lemma HitQuotaIff(c: Config, b: Bucket, permits: nat, now: real)
    requires Sound(c)
    ensures Decided(c, b, permits, now).HitQuota? <==>
      Grants(c, b, permits, now) && !Grants(c, Taken(c, b, permits, now), 1, now)
    ensures Decided(c, b, permits, now).OverQuota? <==> !Grants(c, b, permits, now)
  {
    YieldSign(c.rate, 0.0);
  }

  /** A request above the burst is never granted, leaves the bucket alone, and is told so. */
  lemma NeverIff(c: Config, b: Bucket, permits: nat, now: real)
    requires Sound(c)
    ensures Decided(c, b, permits, now) == OverQuota(NEVER) <==> c.burst < permits
    ensures c.burst < permits ==>
      Taken(c, b, permits, now) == b && forall later, any :: !Grants(c, any, permits, later)
  {
    if permits <= c.burst && !Grants(c, b, permits, now) {
      YieldIsProduct(c.rate, 0.0);
      DelayCovers(permits as real - Refilled(c, b, now).available, c.rate as real, 0.0);
    }
  }

  // ---------------------------------------------------------------- runs

  datatype Call = Call(permits: nat, at: real)

  /** From a full bucket at `start`; the calls come in the order in which they hold the lock. */
  function After(c: Config, start: real, calls: seq<Call>): Bucket {
    if calls == [] then Bucket(c.burst as real, start)
    else Taken(c, After(c, start, calls[..|calls| - 1]), calls[|calls| - 1].permits, calls[|calls| - 1].at)
  }

  predicate InOrder(start: real, calls: seq<Call>) {
    forall i :: 0 <= i < |calls| ==>
      calls[i].permits > 0 && start <= calls[i].at && forall j :: 0 <= j < i ==> calls[j].at <= calls[i].at
  }

  /** The permits of a call that count, if it was granted at `from` or later. */
  function Counted(c: Config, b: Bucket, call: Call, from: real): real {
    if Grants(c, b, call.permits, call.at) && call.at >= from then call.permits as real else 0.0
  }

  function GrantedSince(c: Config, start: real, calls: seq<Call>, from: real): real {
    if calls == [] then 0.0
    else
      var before := calls[..|calls| - 1];
      GrantedSince(c, start, before, from) + Counted(c, After(c, start, before), calls[|calls| - 1], from)
  }

  /** Within the interval; `calls` are in order, so these are the calls up to some point. */
  function GrantedBetween(c: Config, start: real, calls: seq<Call>, from: real, to: real): real {
    if calls == [] then 0.0
    else
      var before, last := calls[..|calls| - 1], calls[|calls| - 1];
      GrantedBetween(c, start, before, from, to)
        + if last.at <= to then Counted(c, After(c, start, before), last, from) else 0.0
  }

  lemma {:induction false} BucketBounds(c: Config, start: real, calls: seq<Call>)
    requires Sound(c) && InOrder(start, calls)
    ensures var b := After(c, start, calls);
      && 0.0 <= b.available <= c.burst as real && start <= b.lastRefill
      && (b.lastRefill == start || exists i :: 0 <= i < |calls| && b.lastRefill == calls[i].at)
  {
    if calls != [] {
      var before, last := calls[..|calls| - 1], calls[|calls| - 1];
      BucketBounds(c, start, before);
      RefillBounds(c, After(c, start, before), last.at);
    }
  }

  lemma RefillBounds(c: Config, b: Bucket, now: real)
    requires 0.0 <= b.available
    ensures 0.0 <= Refilled(c, b, now).available <= c.burst as real
  {
    YieldSign(c.rate, Elapsed(b.lastRefill, now));
  }

  /** A grant at an instant after the last refill is impossible: granting refills. */
  lemma {:induction false} NothingAfterRefill(c: Config, start: real, calls: seq<Call>, from: real)
    requires Sound(c) && InOrder(start, calls) && After(c, start, calls).lastRefill < from
    ensures GrantedSince(c, start, calls, from) == 0.0
  {
    if calls != [] {
      var before, last := calls[..|calls| - 1], calls[|calls| - 1];
      BucketBounds(c, start, before);
      if last.permits <= c.burst {
        assert last.at < from;
      }
      NothingAfterRefill(c, start, before, from);
    }
  }

  /** What was granted since `from` and what is left do not exceed the bucket and its refill since. */
  predicate Within(c: Config, granted: real, b: Bucket, from: real) {
    granted + b.available <= c.burst as real + Yield(c.rate, Elapsed(from, b.lastRefill))
  }

  lemma {:induction false} GrantedAndLeft(c: Config, start: real, calls: seq<Call>, from: real)
    requires Sound(c) && InOrder(start, calls)
    ensures Within(c, GrantedSince(c, start, calls, from), After(c, start, calls), from)
  {
    if calls == [] {
      YieldSign(c.rate, Elapsed(from, start));
    } else {
      var before, last := calls[..|calls| - 1], calls[|calls| - 1];
      GrantedAndLeft(c, start, before, from);
      if last.permits <= c.burst {
        RefillOrder(c, start, calls);
        if After(c, start, before).lastRefill < from {
          NothingAfterRefill(c, start, before, from);
        }
        OneMoreCall(c, After(c, start, before), last, from, GrantedSince(c, start, before, from),
                    After(c, start, calls));
      }
    }
  }

  lemma RefillOrder(c: Config, start: real, calls: seq<Call>)
    requires Sound(c) && InOrder(start, calls) && calls != []
    ensures After(c, start, calls[..|calls| - 1]).lastRefill <= calls[|calls| - 1].at
  {
    BucketBounds(c, start, calls[..|calls| - 1]);
  }

  lemma OneMoreCall(c: Config, b: Bucket, call: Call, from: real, granted: real, b': Bucket)
    requires call.permits <= c.burst && b.lastRefill <= call.at && b' == Taken(c, b, call.permits, call.at)
    requires b.lastRefill < from ==> granted == 0.0
    requires Within(c, granted, b, from)
    ensures Within(c, granted + Counted(c, b, call, from), b', from)
  {
    YieldSign(c.rate, Elapsed(from, call.at));
    if from <= b.lastRefill {
      YieldAdds(c.rate, b.lastRefill - from, call.at - b.lastRefill);
    }
  }

  /**
   * The rate bound: over every run and every interval, the permits granted in the interval are at
   * most the burst plus what the rate yields in that time.
   */
  lemma {:induction false} GrantsRespectTheRate(c: Config, start: real, calls: seq<Call>, from: real, to: real)
    requires Sound(c) && InOrder(start, calls) && from <= to
    ensures GrantedBetween(c, start, calls, from, to) <= c.burst as real + Yield(c.rate, to - from)
  {
    YieldSign(c.rate, to - from);
    if calls == [] {
    } else if calls[|calls| - 1].at > to {
      GrantsRespectTheRate(c, start, calls[..|calls| - 1], from, to);
    } else {
      AllBefore(c, start, calls, from, to);
      GrantedAndLeft(c, start, calls, from);
      BucketBounds(c, start, calls);
      SpanCovers(c, from, After(c, start, calls).lastRefill, to);
    }
  }

  lemma SpanCovers(c: Config, from: real, last: real, to: real)
    requires from <= to
    ensures last <= to ==> Yield(c.rate, Elapsed(from, last)) <= Yield(c.rate, to - from)
  {
    YieldSign(c.rate, to - from);
    YieldSign(c.rate, Elapsed(from, last));
    YieldSign(c.rate, to - last);
    YieldAdds(c.rate, last - from, to - last);
  }

  lemma {:induction false} AllBefore(c: Config, start: real, calls: seq<Call>, from: real, to: real)
    requires forall i :: 0 <= i < |calls| ==> calls[i].at <= to
    ensures GrantedBetween(c, start, calls, from, to) == GrantedSince(c, start, calls, from)
  {
    if calls != [] {
      AllBefore(c, start, calls[..|calls| - 1], from, to);
    }
  }

  // ---------------------------------------------------------------- the bound is the only reason to refuse

  /** The interval from `from` is used up exactly, but for what is left in the bucket. */
  predicate Tight(c: Config, granted: real, b: Bucket, from: real) {
    from <= b.lastRefill && granted + b.available == c.burst as real + Yield(c.rate, b.lastRefill - from)
  }

  lemma {:induction false} TightInterval(c: Config, start: real, calls: seq<Call>) returns (from: real)
    requires Sound(c) && InOrder(start, calls)
    ensures Tight(c, GrantedSince(c, start, calls, from), After(c, start, calls), from)
  {
    if calls == [] {
      from := start;
      YieldSign(c.rate, start - from);
    } else {
      var before, last := calls[..|calls| - 1], calls[|calls| - 1];
      var b := After(c, start, before);
      from := TightInterval(c, start, before);
      if last.permits <= c.burst {
        RefillOrder(c, start, calls);
        from := TightRefill(c, start, before, last.at, from);
        TightTaken(c, b, last, GrantedSince(c, start, before, from), from, After(c, start, calls));
      }
    }
  }

  lemma TightTaken(c: Config, b: Bucket, call: Call, granted: real, from: real, b': Bucket)
    requires Tight(c, granted, Refilled(c, b, call.at), from)
    requires call.permits <= c.burst && b' == Taken(c, b, call.permits, call.at)
    ensures Tight(c, granted + Counted(c, b, call, from), b', from)
  {
  }

  /** Where a bucket that has just been refilled is tight: as before, or from now if it ran full. */
  lemma TightRefill(c: Config, start: real, calls: seq<Call>, now: real, from: real) returns (tight: real)
    requires Sound(c) && InOrder(start, calls) && After(c, start, calls).lastRefill <= now
    requires Tight(c, GrantedSince(c, start, calls, from), After(c, start, calls), from)
    ensures Tight(c, GrantedSince(c, start, calls, tight), Refilled(c, After(c, start, calls), now), tight)
  {
    var b := After(c, start, calls);
    BucketBounds(c, start, calls);
    if now == b.lastRefill || b.available + Yield(c.rate, now - b.lastRefill) < c.burst as real {
      tight := from;
      YieldSign(c.rate, now - b.lastRefill);
      YieldAdds(c.rate, b.lastRefill - from, now - b.lastRefill);
    } else {
      tight := now;
      YieldSign(c.rate, now - tight);
      NothingAfterRefill(c, start, calls, now);
    }
  }

  /** Granting now would push the interval from `from` to now over its bound, burst plus what the rate yields. */
  ghost predicate Exceeds(c: Config, start: real, calls: seq<Call>, permits: nat, now: real, from: real) {
    from <= now && GrantedSince(c, start, calls, from) + permits as real > c.burst as real + Yield(c.rate, now - from)
  }

  lemma GrantedWithinBound(c: Config, start: real, calls: seq<Call>, before: seq<Call>, last: Call, from: real)
    requires Sound(c) && InOrder(start, calls) && calls != []
    requires before == calls[..|calls| - 1] && last == calls[|calls| - 1]
    requires Grants(c, After(c, start, before), last.permits, last.at)
    ensures !Exceeds(c, start, before, last.permits, last.at, from)
  {
    GrantedAndLeft(c, start, calls, from);
    BucketBounds(c, start, calls);
  }

  lemma RefusedExceeds(c: Config, start: real, calls: seq<Call>, permits: nat, now: real) returns (from: real)
    requires Sound(c) && 0 < permits && InOrder(start, calls) && After(c, start, calls).lastRefill <= now
    requires !Grants(c, After(c, start, calls), permits, now)
    ensures Exceeds(c, start, calls, permits, now, from)
  {
    if permits > c.burst {
      from := now;
      GrantsAreNotNegative(c, start, calls, now);
      YieldSign(c.rate, now - from);
    } else {
      from := TightInterval(c, start, calls);
      from := TightRefill(c, start, calls, now, from);
    }
  }

  /**
   * The limiter is exactly the rate bound: the last request of a run is granted if and only if
   * granting it keeps every interval that ends with it within its bound.
   */
  lemma GrantsIffBoundKept(c: Config, start: real, calls: seq<Call>, before: seq<Call>, last: Call)
    requires Sound(c) && InOrder(start, calls) && calls != []
    requires before == calls[..|calls| - 1] && last == calls[|calls| - 1]
    ensures Grants(c, After(c, start, before), last.permits, last.at)
       <==> !exists from :: Exceeds(c, start, before, last.permits, last.at, from)
  {
    RefillOrder(c, start, calls);
    if Grants(c, After(c, start, before), last.permits, last.at) {
      forall from ensures !Exceeds(c, start, before, last.permits, last.at, from) {
        GrantedWithinBound(c, start, calls, before, last, from);
      }
    } else {
      var from := RefusedExceeds(c, start, before, last.permits, last.at);
    }
  }

  lemma {:induction false} GrantsAreNotNegative(c: Config, start: real, calls: seq<Call>, from: real)
    ensures GrantedSince(c, start, calls, from) >= 0.0
  {
    if calls != [] {
      GrantsAreNotNegative(c, start, calls[..|calls| - 1], from);
    }
  }

  // ---------------------------------------------------------------- the limiter

  class TokenLimiter {
    const config: Config
    var available: real
    var lastRefill: real

    constructor (rate: nat, burst: nat, now: real)
      requires 0 < rate && 0 < burst
      ensures config == Config(rate, burst) && Contents() == Bucket(burst as real, now)
    {
      config, available, lastRefill := Config(rate, burst), burst as real, now;
    }

    function Contents(): Bucket
      reads this
    {
      Bucket(available, lastRefill)
    }

    method Take(permits: nat, now: real) returns (decision: Decision)
      requires Sound(config) && 0 < permits
      modifies this
      ensures Contents() == Taken(config, old(Contents()), permits, now)
      ensures decision == Decided(config, old(Contents()), permits, now)
      ensures !decision.OverQuota? <==> Grants(config, old(Contents()), permits, now)
    {
      if permits > config.burst {
        return OverQuota(NEVER);
      }
      Refill(now);
      if available >= permits as real {
        available := available - permits as real;
        decision := if available < 1.0 then HitQuota else Allowed;
      } else {
        decision := OverQuota((permits as real - available) / config.rate as real);
      }
    }

    method Refill(now: real)
      modifies this
      ensures Contents() == Refilled(config, old(Contents()), now)
    {
      var elapsed := Elapsed(lastRefill, now);
      YieldIsProduct(config.rate, elapsed);
      var filled := available + elapsed * config.rate as real;
      available := if filled < config.burst as real then filled else config.burst as real;
      lastRefill := now;
    }

    method Allow(now: real) returns (allowed: bool)
      requires Sound(config)
      modifies this
      ensures allowed <==> Grants(config, old(Contents()), 1, now)
      ensures Contents() == Taken(config, old(Contents()), 1, now)
    {
      var decision := Take(1, now);
      allowed := !decision.OverQuota?;
    }
  }
}
