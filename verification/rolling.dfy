/**
 * The rolling window of core/src/rolling.rs, and the bucket rotation it shares with the rolling
 * circuit breaker of core/src/breaker.rs. Instants and durations are whole nanoseconds.
 *
 * Rotation is generic in the bucket. The proofs run it on buckets that remember every observation
 * (`slots`); the program's buckets are summaries of those.
 */
module Windows {
  import opened Sequences

  /** The start of the newest bucket, and the buckets from oldest to newest. */
  datatype Window<B> = Window(started: nat, buckets: seq<B>)

  function Push<B>(n: nat, empty: B, buckets: seq<B>): seq<B> {
    var longer := buckets + [empty];
    if |longer| > n then longer[1..] else longer
  }

  function Shifted<B>(n: nat, empty: B, buckets: seq<B>, times: nat): seq<B>
    decreases times
  {
    if times == 0 then buckets else Shifted(n, empty, Push(n, empty, buckets), times - 1)
  }

  /** How many whole buckets have passed; an instant before the start counts as the start. */
  function Passed(width: nat, started: nat, now: nat): nat
    requires 0 < width
  {
    (if started <= now then now - started else 0) / width
  }

  function Rotated<B>(n: nat, width: nat, empty: B, s: Window<B>, now: nat): Window<B>
    requires 0 < n && 0 < width
  {
    var passed := Passed(width, s.started, now);
    if passed == 0 then s
    else if passed >= n then Window(now, [empty])
    else Window(s.started + width * passed, Shifted(n, empty, s.buckets, passed))
  }

  // ---------------------------------------------------------------- buckets that remember

  datatype Observation<T> = Observation(at: nat, value: T)

  /** The observations made at or after `from`, in order. */
  function Since<T>(log: seq<Observation<T>>, from: int): seq<Observation<T>> {
    if log == [] then []
    else if log[0].at >= from then [log[0]] + Since(log[1..], from)
    else Since(log[1..], from)
  }

  lemma {:induction false} SinceConcat<T>(a: seq<Observation<T>>, b: seq<Observation<T>>, from: int)
    ensures Since(a + b, from) == Since(a, from) + Since(b, from)
  {
    if a == [] {
      assert a + b == b;
    } else {
      assert (a + b)[1..] == a[1..] + b;
      SinceConcat(a[1..], b, from);
    }
  }

  lemma {:induction false} SinceAll<T>(log: seq<Observation<T>>, from: int)
    requires forall x :: x in log ==> from <= x.at
    ensures Since(log, from) == log
  {
    if log != [] {
      assert log[0] in log;
      SinceAll(log[1..], from);
    }
  }

  lemma {:induction false} SinceNone<T>(log: seq<Observation<T>>, from: int)
    requires forall x :: x in log ==> x.at < from
    ensures Since(log, from) == []
  {
    if log != [] {
      assert log[0] in log;
      SinceNone(log[1..], from);
    }
  }

  lemma {:induction false} SinceMember<T>(log: seq<Observation<T>>, from: int, x: Observation<T>)
    ensures x in Since(log, from) <==> x in log && from <= x.at
  {
    if log != [] {
      SinceMember(log[1..], from, x);
      assert log == [log[0]] + log[1..];
    }
  }

  /** The first instant that the present buckets can still count. */
  function Cutoff<B>(n: nat, width: nat, s: Window<B>): int {
    s.started - (n - 1) * width
  }

  /** Bucket `j` holds observations of one width: the newest starts at `started`. */
  predicate InSlot<T>(width: nat, s: Window<seq<Observation<T>>>, j: nat, x: Observation<T>)
    requires j < |s.buckets|
  {
    s.started - (|s.buckets| - 1 - j) * width <= x.at < s.started - (|s.buckets| - 1 - j) * width + width
  }

  ghost predicate SlotsAligned<T>(width: nat, s: Window<seq<Observation<T>>>) {
    forall j: nat, x {:trigger InSlot(width, s, j, x)} ::
      j < |s.buckets| && x in s.buckets[j] ==> InSlot(width, s, j, x)
  }

  /** The log is what was dropped, all of it before the cutoff, followed by what the slots hold. */
  ghost predicate Accounts<T>(n: nat, width: nat, s: Window<seq<Observation<T>>>, log: seq<Observation<T>>,
      dropped: seq<Observation<T>>)
  {
    && 1 <= |s.buckets| <= n
    && SlotsAligned(width, s)
    && log == dropped + Flatten(s.buckets)
    && forall x :: x in dropped ==> x.at < Cutoff(n, width, s)
  }

  lemma {:induction false} InSomeSlot<T>(parts: seq<seq<T>>, x: T) returns (j: nat)
    requires x in Flatten(parts)
    ensures j < |parts| && x in parts[j]
  {
    if x in parts[0] {
      j := 0;
    } else {
      var k := InSomeSlot(parts[1..], x);
      j := k + 1;
    }
  }

  lemma Scale(a: int, b: int, width: nat)
    requires a <= b
    ensures a * width <= b * width
  {
  }

  /** Everything in the slots lies between the cutoff and the end of the newest bucket. */
  lemma SlotBounds<T>(n: nat, width: nat, s: Window<seq<Observation<T>>>, log: seq<Observation<T>>,
      dropped: seq<Observation<T>>, x: Observation<T>)
    requires 0 < width && Accounts(n, width, s, log, dropped) && x in Flatten(s.buckets)
    ensures Cutoff(n, width, s) <= x.at < s.started + width
  {
    var j := InSomeSlot(s.buckets, x);
    assert InSlot(width, s, j, x);
    Scale(|s.buckets| - 1 - j, n - 1, width);
    Scale(0, |s.buckets| - 1 - j, width);
  }

  /** So the slots hold exactly the observations made at or after the cutoff. */
  lemma SlotsAreTheRecent<T>(n: nat, width: nat, s: Window<seq<Observation<T>>>, log: seq<Observation<T>>,
      dropped: seq<Observation<T>>)
    requires 0 < width && Accounts(n, width, s, log, dropped)
    ensures Flatten(s.buckets) == Since(log, Cutoff(n, width, s))
    ensures forall x :: x in log ==> x.at < s.started + width
  {
    forall x | x in Flatten(s.buckets) ensures Cutoff(n, width, s) <= x.at < s.started + width {
      SlotBounds(n, width, s, log, dropped, x);
    }
    Scale(0, n - 1, width);
    SinceConcat(dropped, Flatten(s.buckets), Cutoff(n, width, s));
    SinceNone(dropped, Cutoff(n, width, s));
    SinceAll(Flatten(s.buckets), Cutoff(n, width, s));
  }

  /** One bucket width passes. */
  lemma ShiftOnce<T>(n: nat, width: nat, s: Window<seq<Observation<T>>>, log: seq<Observation<T>>,
      dropped: seq<Observation<T>>)
    returns (dropped': seq<Observation<T>>)
    requires 0 < n && 0 < width && Accounts(n, width, s, log, dropped)
    ensures Accounts(n, width, Window(s.started + width, Push(n, [], s.buckets)), log, dropped')
  {
    var s' := Window(s.started + width, Push(n, [], s.buckets));
    var gone := |s.buckets| + 1 - |s'.buckets|;
    FlattenAppend(s.buckets, []);
    assert Flatten(s.buckets + [[]]) == Flatten(s.buckets);
    dropped' := if gone == 0 then dropped else dropped + s.buckets[0];
    assert gone != 0 ==> (s.buckets + [[]])[0] == s.buckets[0];
    forall j: nat, x | j < |s'.buckets| && x in s'.buckets[j] ensures InSlot(width, s', j, x) {
      assert InSlot(width, s, j + gone, x);
      SameStart(width, s.started, |s.buckets|, |s'.buckets|, j, gone);
    }
    forall x | x in dropped' ensures x.at < Cutoff(n, width, s') {
      if x !in dropped {
        assert InSlot(width, s, 0, x);
      }
    }
  }

  lemma SameStart(width: nat, started: int, size: nat, size': nat, j: nat, gone: nat)
    requires size' == size + 1 - gone
    ensures started + width - (size' - 1 - j) * width == started - (size - 1 - (j + gone)) * width
  {
    assert size' - 1 - j == (size - 1 - (j + gone)) + 1;
  }

  lemma {:induction false} ShiftMany<T>(n: nat, width: nat, s: Window<seq<Observation<T>>>, log: seq<Observation<T>>,
    dropped: seq<Observation<T>>, times: nat) returns (dropped': seq<Observation<T>>)
    requires 0 < n && 0 < width && Accounts(n, width, s, log, dropped)
    ensures Accounts(n, width, Window(s.started + width * times, Shifted(n, [], s.buckets, times)), log, dropped')
    decreases times
  {
    if times == 0 {
      dropped' := dropped;
    } else {
      dropped' := ShiftOnce(n, width, s, log, dropped);
      dropped' := ShiftMany(n, width, Window(s.started + width, Push(n, [], s.buckets)), log, dropped', times - 1);
      assert width + width * (times - 1) == width * times;
    }
  }

  lemma DivideElapsed(width: nat, elapsed: nat)
    requires 0 < width
    ensures width * (elapsed / width) <= elapsed < width * (elapsed / width) + width
  {
  }

  /** Rotation loses nothing it may still count, and the newest bucket ends up containing `now`. */
  lemma RotateAccounts<T>(n: nat, width: nat, s: Window<seq<Observation<T>>>, log: seq<Observation<T>>,
    dropped: seq<Observation<T>>, now: nat) returns (dropped': seq<Observation<T>>)
    requires 0 < n && 0 < width && Accounts(n, width, s, log, dropped) && s.started <= now
    ensures Accounts(n, width, Rotated(n, width, [], s, now), log, dropped')
    ensures now - width < Rotated(n, width, [], s, now).started <= now
  {
    var passed := Passed(width, s.started, now);
    DivideElapsed(width, now - s.started);
    if passed == 0 {
      dropped' := dropped;
    } else if passed >= n {
      dropped' := log;
      Clears(n, width, s, log, dropped, now);
    } else {
      dropped' := ShiftMany(n, width, s, log, dropped, passed);
    }
  }

  lemma Clears<T>(n: nat, width: nat, s: Window<seq<Observation<T>>>, log: seq<Observation<T>>,
    dropped: seq<Observation<T>>, now: nat)
    requires 0 < n && 0 < width && Accounts(n, width, s, log, dropped) && s.started + n * width <= now
    ensures Accounts(n, width, Window(now, [[]]), log, log)
  {
    var s': Window<seq<Observation<T>>> := Window(now, [[]]);
    SlotsAreTheRecent(n, width, s, log, dropped);
    assert n * width == (n - 1) * width + width;
    assert Flatten(s'.buckets) == [];
    assert s'.buckets[0] == [];
  }

  /** Recording into the newest bucket. */
  function Recorded<T>(s: Window<seq<Observation<T>>>, x: Observation<T>): Window<seq<Observation<T>>>
    requires s.buckets != []
  {
    var last := |s.buckets| - 1;
    s.(buckets := s.buckets[last := s.buckets[last] + [x]])
  }

  lemma RecordAccounts<T>(n: nat, width: nat, s: Window<seq<Observation<T>>>, log: seq<Observation<T>>,
    dropped: seq<Observation<T>>, x: Observation<T>)
    requires 0 < n && 0 < width && Accounts(n, width, s, log, dropped)
    requires s.started <= x.at < s.started + width
    ensures Accounts(n, width, Recorded(s, x), log + [x], dropped)
  {
    var s', last := Recorded(s, x), |s.buckets| - 1;
    var front, newest := s.buckets[..last], s.buckets[last];
    assert s.buckets == front + [newest];
    assert s'.buckets == front + [newest + [x]];
    FlattenAppend(front, newest);
    FlattenAppend(front, newest + [x]);
    forall j: nat, y | j < |s'.buckets| && y in s'.buckets[j] ensures InSlot(width, s', j, y) {
      if y in s.buckets[j] {
        assert InSlot(width, s, j, y);
      }
    }
  }

  /**
   * Window exactness. After rotating to `now`, what the buckets hold is exactly the log from
   * `started - (n - 1) * width` on. In particular everything of age at most `(n - 1) * width` is
   * held and nothing of age `n * width` or more.
   */
  lemma WindowIsExact<T>(n: nat, width: nat, s: Window<seq<Observation<T>>>, log: seq<Observation<T>>,
    dropped: seq<Observation<T>>, now: nat)
    requires 0 < n && 0 < width && Accounts(n, width, s, log, dropped) && s.started <= now
    ensures var s' := Rotated(n, width, [], s, now); var held := Flatten(s'.buckets);
      && now - width < s'.started <= now
      && held == Since(log, s'.started - (n - 1) * width)
      && (forall x :: x in log && now - x.at <= (n - 1) * width ==> x in held)
      && (forall x :: x in held ==> x in log && now - x.at < n * width)
  {
    var dropped' := RotateAccounts(n, width, s, log, dropped, now);
    var s' := Rotated(n, width, [], s, now);
    SlotsAreTheRecent(n, width, s', log, dropped');
    assert n * width == (n - 1) * width + width;
    forall x | x in log && now - x.at <= (n - 1) * width ensures x in Flatten(s'.buckets) {
      SinceMember(log, Cutoff(n, width, s'), x);
    }
    forall x | x in Flatten(s'.buckets) ensures x in log && now - x.at < n * width {
      SinceMember(log, Cutoff(n, width, s'), x);
    }
  }

  // ---------------------------------------------------------------- extra snapshots

  lemma QuotientIs(width: nat, elapsed: nat, quotient: int)
    requires 0 < width && width * quotient <= elapsed < width * quotient + width
    ensures elapsed / width == quotient
  {
    var actual := elapsed / width;
    DivideElapsed(width, elapsed);
    if actual < quotient {
      Scale(actual + 1, quotient, width);
    } else if quotient < actual {
      Scale(quotient + 1, actual, width);
    }
  }

  lemma PassedAgain(width: nat, started: nat, first: nat, now: nat)
    requires 0 < width && started <= first <= now
    ensures var e1 := Passed(width, started, first);
      && started + width * e1 <= first
      && e1 <= Passed(width, started, now)
      && Passed(width, started + width * e1, now) == Passed(width, started, now) - e1
  {
    var e1, e := (first - started) / width, (now - started) / width;
    DivideElapsed(width, first - started);
    DivideElapsed(width, now - started);
    assert width * (e - e1) == width * e - width * e1;
    if e < e1 {
      Scale(e + 1, e1, width);
    }
    QuotientIs(width, now - started - width * e1, e - e1);
  }

  /** Where a rotation leaves the start of the newest bucket. */
  function StartAfter(n: nat, width: nat, started: nat, now: nat): nat
    requires 0 < width
  {
    var passed := Passed(width, started, now);
    if passed == 0 then started else if passed >= n then now else started + width * passed
  }

  lemma StartOutOfReach(n: nat, width: nat, started: nat, now: nat)
    requires 0 < width && started <= now
    ensures Passed(width, started, now) >= n ==> started + n * width <= now
    ensures started + width * Passed(width, started, now) <= now
  {
    var passed := Passed(width, started, now);
    DivideElapsed(width, now - started);
    if passed >= n {
      Scale(n, passed, width);
    }
  }

  /** Two rotations in a row end at the start one rotation would reach, or beyond all that was recorded. */
  lemma RotateTwiceStart(n: nat, width: nat, started: nat, first: nat, now: nat)
    requires 0 < n && 0 < width && started <= first <= now
    ensures var mid := StartAfter(n, width, started, first);
      var once, twice := StartAfter(n, width, started, now), StartAfter(n, width, mid, now);
      twice == once || (started + n * width <= twice && started + n * width <= once)
  {
    var e1, e := Passed(width, started, first), Passed(width, started, now);
    StartOutOfReach(n, width, started, first);
    StartOutOfReach(n, width, started, now);
    PassedAgain(width, started, first, now);
    if e1 >= n {
      StartOutOfReach(n, width, first, now);
    } else {
      Scale(e1, e, width);
      assert width * e1 + width * (e - e1) == width * e;
      if e >= n {
        Scale(n, e, width);
      }
    }
  }

  /** A snapshot in between, with nothing recorded after it, does not change what a later one sees. */
  lemma ExtraSnapshotIsInvisible<T>(n: nat, width: nat, s: Window<seq<Observation<T>>>, log: seq<Observation<T>>,
    dropped: seq<Observation<T>>, first: nat, now: nat)
    requires 0 < n && 0 < width && Accounts(n, width, s, log, dropped) && s.started <= first <= now
    ensures Flatten(Rotated(n, width, [], Rotated(n, width, [], s, first), now).buckets)
         == Flatten(Rotated(n, width, [], s, now).buckets)
  {
    var middle := Rotated(n, width, [], s, first);
    var once, twice := Rotated(n, width, [], s, now), Rotated(n, width, [], middle, now);
    var d1 := RotateAccounts(n, width, s, log, dropped, first);
    WindowIsExact(n, width, middle, log, d1, now);
    WindowIsExact(n, width, s, log, dropped, now);
    RotateTwiceStart(n, width, s.started, first, now);
    if twice.started != once.started {
      NothingThatLate(n, width, s, log, dropped, once.started);
      NothingThatLate(n, width, s, log, dropped, twice.started);
    }
  }

  lemma NothingThatLate<T>(n: nat, width: nat, s: Window<seq<Observation<T>>>, log: seq<Observation<T>>,
    dropped: seq<Observation<T>>, started: nat)
    requires 0 < n && 0 < width && Accounts(n, width, s, log, dropped) && s.started + n * width <= started
    ensures Since(log, started - (n - 1) * width) == []
  {
    SlotsAreTheRecent(n, width, s, log, dropped);
    assert n * width == (n - 1) * width + width;
    SinceNone(log, started - (n - 1) * width);
  }

  /** What a snapshot at `now` sees after `x` has been recorded into the window at its instant. */
  function SeenLater<T>(n: nat, width: nat, s: Window<seq<Observation<T>>>, x: Observation<T>, now: nat)
    : seq<Observation<T>>
    requires 0 < n && 0 < width
  {
    var ready := Rotated(n, width, [], s, x.at);
    Flatten(Rotated(n, width, [], if ready.buckets == [] then ready else Recorded(ready, x), now).buckets)
  }

  lemma SeenLaterIs<T>(n: nat, width: nat, s: Window<seq<Observation<T>>>, log: seq<Observation<T>>,
    dropped: seq<Observation<T>>, x: Observation<T>, now: nat)
    requires 0 < n && 0 < width && Accounts(n, width, s, log, dropped) && s.started <= x.at <= now
    ensures var started := StartAfter(n, width, StartAfter(n, width, s.started, x.at), now);
      SeenLater(n, width, s, x, now) == Since(log + [x], started - (n - 1) * width)
  {
    var d := RotateAccounts(n, width, s, log, dropped, x.at);
    var ready := Rotated(n, width, [], s, x.at);
    RecordAccounts(n, width, ready, log, d, x);
    WindowIsExact(n, width, Recorded(ready, x), log + [x], d, now);
  }

  /** A caller can tell: the window has not been cleared by `mid`, or both ways it starts afresh there. */
  predicate KeepsAlignment(n: nat, width: nat, started: nat, first: nat, mid: nat)
    requires 0 < width
  {
    Passed(width, started, mid) < n || StartAfter(n, width, StartAfter(n, width, started, first), mid) == mid
  }

  lemma AlignmentKept(n: nat, width: nat, started: nat, first: nat, mid: nat)
    requires 0 < n && 0 < width && started <= first <= mid
    ensures KeepsAlignment(n, width, started, first, mid) <==>
      StartAfter(n, width, StartAfter(n, width, started, first), mid) == StartAfter(n, width, started, mid)
  {
    var e1, e := Passed(width, started, first), Passed(width, started, mid);
    PassedAgain(width, started, first, mid);
    if e < n {
      assert width * e1 + width * (e - e1) == width * e;
    }
  }

  /** Where the two ways part, `n` widths after the start that the extra snapshot leaves. */
  lemma PartingInstant(n: nat, width: nat, b: nat, mid: nat)
    requires 0 < n && 0 < width && b < mid < b + width
    ensures mid <= b + n * width && StartAfter(n, width, b, b + n * width) == b + n * width
    ensures StartAfter(n, width, mid, b + n * width) == mid + (n - 1) * width
  {
    var now := b + n * width;
    assert n * width == (n - 1) * width + width && (n - 1) * width >= 0;
    QuotientIs(width, now - b, n);
    QuotientIs(width, now - mid, n - 1);
  }

  lemma TwiceStarts<T>(n: nat, width: nat, s: Window<seq<Observation<T>>>, log: seq<Observation<T>>,
    dropped: seq<Observation<T>>, first: nat, mid: nat) returns (dropped': seq<Observation<T>>)
    requires 0 < n && 0 < width && Accounts(n, width, s, log, dropped) && s.started <= first <= mid
    ensures Accounts(n, width, Rotated(n, width, [], s, first), log, dropped')
    ensures Rotated(n, width, [], s, first).started == StartAfter(n, width, s.started, first) <= first
    ensures var b := StartAfter(n, width, StartAfter(n, width, s.started, first), mid); mid - width < b <= mid
  {
    dropped' := RotateAccounts(n, width, s, log, dropped, first);
    var d := RotateAccounts(n, width, Rotated(n, width, [], s, first), log, dropped', mid);
  }

  /** The snapshot at the parting instant still counts `x` without the extra snapshot, and nothing with it. */
  lemma PartingSnapshots<T>(n: nat, width: nat, s: Window<seq<Observation<T>>>, log: seq<Observation<T>>,
    dropped: seq<Observation<T>>, first: nat, x: Observation<T>) returns (now: nat)
    requires 0 < n && 0 < width && Accounts(n, width, s, log, dropped) && s.started <= first <= x.at
    requires !KeepsAlignment(n, width, s.started, first, x.at)
    ensures x.at <= now && x in SeenLater(n, width, s, x, now)
    ensures x !in SeenLater(n, width, Rotated(n, width, [], s, first), x, now)
  {
    var middle := Rotated(n, width, [], s, first);
    var d := TwiceStarts(n, width, s, log, dropped, first, x.at);
    var b := StartAfter(n, width, middle.started, x.at);
    now := b + n * width;
    PartingInstant(n, width, b, x.at);
    SeenLaterIs(n, width, s, log, dropped, x, now);
    SeenLaterIs(n, width, middle, log, d, x, now);
    SinceMember(log + [x], x.at, x);
    assert n * width == (n - 1) * width + width;
    SinceMember(log + [x], now - (n - 1) * width, x);
  }

  /**
   * When an extra snapshot matters. With `x` recorded after it, every later snapshot sees the same
   * as without it if and only if `KeepsAlignment` holds.
   */
  lemma ExtraSnapshotMattersIff<T>(n: nat, width: nat, s: Window<seq<Observation<T>>>, log: seq<Observation<T>>,
    dropped: seq<Observation<T>>, first: nat, x: Observation<T>)
    requires 0 < n && 0 < width && Accounts(n, width, s, log, dropped) && s.started <= first <= x.at
    ensures KeepsAlignment(n, width, s.started, first, x.at) <==>
      forall now :: x.at <= now ==>
        SeenLater(n, width, Rotated(n, width, [], s, first), x, now) == SeenLater(n, width, s, x, now)
  {
    var middle := Rotated(n, width, [], s, first);
    var d := TwiceStarts(n, width, s, log, dropped, first, x.at);
    if KeepsAlignment(n, width, s.started, first, x.at) {
      AlignmentKept(n, width, s.started, first, x.at);
      forall now | x.at <= now ensures SeenLater(n, width, middle, x, now) == SeenLater(n, width, s, x, now) {
        SeenLaterIs(n, width, s, log, dropped, x, now);
        SeenLaterIs(n, width, middle, log, d, x, now);
      }
    } else {
      var now := PartingSnapshots(n, width, s, log, dropped, first, x);
    }
  }

  /** Any number of observations recorded one after the other. */
  function RecordAll<T>(
    n: nat, width: nat, s: Window<seq<Observation<T>>>, later: seq<Observation<T>>): Window<seq<Observation<T>>>
    requires 0 < n && 0 < width
  {
    if later == [] then s
    else
      var x := later[|later| - 1];
      var ready := Rotated(n, width, [], RecordAll(n, width, s, later[..|later| - 1]), x.at);
      if ready.buckets == [] then ready else Recorded(ready, x)
  }

  /** The instants do not decrease, and the first is not before `from`. */
  predicate InOrder<T>(from: nat, later: seq<Observation<T>>) {
    forall i :: 0 <= i < |later| ==> from <= later[i].at && forall j :: 0 <= j < i ==> later[j].at <= later[i].at
  }

  function LastInstant<T>(from: nat, later: seq<Observation<T>>): nat {
    if later == [] then from else later[|later| - 1].at
  }

  function StartAfterAll<T>(n: nat, width: nat, started: nat, later: seq<Observation<T>>): nat
    requires 0 < width
  {
    if later == [] then started
    else StartAfter(n, width, StartAfterAll(n, width, started, later[..|later| - 1]), later[|later| - 1].at)
  }

  lemma {:induction false} RecordAllAccounts<T>(n: nat, width: nat, s: Window<seq<Observation<T>>>,
      log: seq<Observation<T>>,
    dropped: seq<Observation<T>>, later: seq<Observation<T>>) returns (dropped': seq<Observation<T>>)
    requires 0 < n && 0 < width && Accounts(n, width, s, log, dropped) && InOrder(s.started, later)
    ensures Accounts(n, width, RecordAll(n, width, s, later), log + later, dropped')
    ensures RecordAll(n, width, s, later).started == StartAfterAll(n, width, s.started, later)
    ensures s.started <= LastInstant(s.started, later)
    ensures StartAfterAll(n, width, s.started, later) <= LastInstant(s.started, later)
  {
    if later == [] {
      dropped' := dropped;
      assert log + later == log;
    } else {
      var front, x := later[..|later| - 1], later[|later| - 1];
      var d := RecordAllAccounts(n, width, s, log, dropped, front);
      var before := RecordAll(n, width, s, front);
      dropped' := RotateAccounts(n, width, before, log + front, d, x.at);
      RecordAccounts(n, width, Rotated(n, width, [], before, x.at), log + front, dropped', x);
      assert log + later == log + front + [x];
    }
  }

  /** Starts that agree at the first record agree ever after. */
  lemma {:induction false} StartsAgree<T>(n: nat, width: nat, a: nat, b: nat, later: seq<Observation<T>>)
    requires 0 < width && later != [] && StartAfter(n, width, a, later[0].at) == StartAfter(n, width, b, later[0].at)
    ensures StartAfterAll(n, width, a, later) == StartAfterAll(n, width, b, later)
  {
    var front := later[..|later| - 1];
    if front != [] {
      StartsAgree(n, width, a, b, front);
    }
  }

  /** What a snapshot at `now` sees after all of them. */
  function SeenAfterAll<T>(n: nat, width: nat, s: Window<seq<Observation<T>>>, later: seq<Observation<T>>, now: nat):
    seq<Observation<T>>
    requires 0 < n && 0 < width
  {
    Flatten(Rotated(n, width, [], RecordAll(n, width, s, later), now).buckets)
  }

  lemma SeenAfterAllIs<T>(n: nat, width: nat, s: Window<seq<Observation<T>>>, log: seq<Observation<T>>,
    dropped: seq<Observation<T>>, later: seq<Observation<T>>, now: nat)
    requires 0 < n && 0 < width && Accounts(n, width, s, log, dropped)
    requires InOrder(s.started, later) && LastInstant(s.started, later) <= now
    ensures var started := StartAfter(n, width, StartAfterAll(n, width, s.started, later), now);
      SeenAfterAll(n, width, s, later, now) == Since(log + later, started - (n - 1) * width)
  {
    var d := RecordAllAccounts(n, width, s, log, dropped, later);
    WindowIsExact(n, width, RecordAll(n, width, s, later), log + later, d, now);
  }

  /** Where alignment is kept, the extra snapshot never matters, whatever is recorded and looked at later. */
  lemma KeptAlignmentForever<T>(n: nat, width: nat, s: Window<seq<Observation<T>>>, log: seq<Observation<T>>,
    dropped: seq<Observation<T>>, first: nat, later: seq<Observation<T>>, now: nat)
    requires 0 < n && 0 < width && Accounts(n, width, s, log, dropped)
    requires later != [] && s.started <= first && InOrder(first, later) && LastInstant(first, later) <= now
    requires KeepsAlignment(n, width, s.started, first, later[0].at)
    ensures SeenAfterAll(n, width, Rotated(n, width, [], s, first), later, now) == SeenAfterAll(n, width, s, later, now)
  {
    var middle := Rotated(n, width, [], s, first);
    var d := TwiceStarts(n, width, s, log, dropped, first, first);
    AlignmentKept(n, width, s.started, first, later[0].at);
    StartsAgree(n, width, middle.started, s.started, later);
    SeenAfterAllIs(n, width, s, log, dropped, later, now);
    SeenAfterAllIs(n, width, middle, log, d, later, now);
  }

  /**
   * With a record in between it can: an extra snapshot at 19 keeps the buckets aligned to 0, so the
   * observation of instant 25 is gone at 41; without it the window realigns to 25 and still holds it.
   */
  lemma ExtraSnapshotCanShiftAlignment()
    ensures var s: Window<seq<Observation<int>>> := Window(0, [[]]); var x := Observation(25, 1);
      && Rotated(2, 10, [], Recorded(Rotated(2, 10, [], s, 25), x), 41) == Window(35, [[x], []])
      && Rotated(2, 10, [], Recorded(Rotated(2, 10, [], Rotated(2, 10, [], s, 19), 25), x), 41) == Window(41, [[]])
  {
    var s: Window<seq<Observation<int>>> := Window(0, [[]]);
    var x := Observation(25, 1);
    assert Rotated(2, 10, [], s, 25) == Window(25, [[]]);
    assert [] + [x] == [x];
    assert Recorded(Rotated(2, 10, [], s, 25), x).buckets == [[x]];
    assert Shifted(2, [], [[x]], 1) == [[x], []];
    assert Rotated(2, 10, [], s, 19) == Window(10, [[], []]);
    assert Shifted(2, [], [s.buckets[0], []], 1) == [s.buckets[0], []];
    assert Rotated(2, 10, [], Rotated(2, 10, [], s, 19), 25) == Window(20, [[], []]);
    assert Recorded(Rotated(2, 10, [], Rotated(2, 10, [], s, 19), 25), x).buckets == [[], [x]];
  }

  // ---------------------------------------------------------------- summaries of slots

  function Map<A, B>(f: A -> B, q: seq<A>): seq<B> {
    if q == [] then [] else Map(f, q[..|q| - 1]) + [f(q[|q| - 1])]
  }

  lemma {:induction false} MapSize<A, B>(f: A -> B, q: seq<A>)
    ensures |Map(f, q)| == |q|
  {
    if q != [] {
      MapSize(f, q[..|q| - 1]);
    }
  }

  lemma MapAppend<A, B>(f: A -> B, q: seq<A>, x: A)
    ensures Map(f, q + [x]) == Map(f, q) + [f(x)]
  {
    assert (q + [x])[..|q|] == q;
  }

  lemma {:induction false} MapTail<A, B>(f: A -> B, q: seq<A>)
    requires q != []
    ensures |Map(f, q)| == |q| && Map(f, q[1..]) == Map(f, q)[1..]
  {
    MapSize(f, q);
    if |q| > 1 {
      var front, x := q[..|q| - 1], q[|q| - 1];
      MapTail(f, front);
      assert q[1..][..|q| - 2] == front[1..];
    }
  }

  /** Rotation does not look into buckets, so it commutes with summarizing them. */
  lemma {:induction false} ShiftedMap<A, B>(f: A -> B, n: nat, empty: A, buckets: seq<A>, times: nat)
    ensures Map(f, Shifted(n, empty, buckets, times)) == Shifted(n, f(empty), Map(f, buckets), times)
    decreases times
  {
    if times != 0 {
      MapSize(f, buckets);
      MapAppend(f, buckets, empty);
      MapTail(f, buckets + [empty]);
      ShiftedMap(f, n, empty, Push(n, empty, buckets), times - 1);
    }
  }

  lemma RotatedMap<A, B>(f: A -> B, n: nat, width: nat, empty: A, s: Window<A>, now: nat)
    requires 0 < n && 0 < width
    ensures var s' := Rotated(n, width, empty, s, now);
      Rotated(n, width, f(empty), Window(s.started, Map(f, s.buckets)), now) == Window(s'.started, Map(f, s'.buckets))
  {
    ShiftedMap(f, n, empty, s.buckets, Passed(width, s.started, now));
    assert Map(f, [empty]) == [f(empty)];
  }
}
