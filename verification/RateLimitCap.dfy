/** The most failed attempts fifteen minutes can hold, exactly, for every number of attempts and every lockout: with
    the shipped fifteen minutes on a clock finer than a second, one more than a lock that outlives its window allows. */
module RateLimitCap {
  import opened Options
  import opened RateLimit

  // ---------------------------------------------------------------------------
  // Rests
  // ---------------------------------------------------------------------------

  /** From a failure that locks to the moment the check lets its address back in. */
  function Rest(c: Config): (rest: int)
    ensures rest > 0
  {
    c.Lockout() - c.Second() + 1
  }

  /** So many of them. */
  function Rests(n: int, rest: int): int {
    n * rest
  }

  lemma OneMoreRest(n: int, rest: int)
    ensures Rests(n + 1, rest) == Rests(n, rest) + rest && Rests(0, rest) == 0
  {
  }

  lemma RestsAdd(n: int, m: int, rest: int)
    ensures Rests(n, rest) + Rests(m, rest) == Rests(n + m, rest)
  {
  }

  lemma FewerRests(n: int, m: int, rest: int)
    requires n <= m && rest > 0
    ensures Rests(n, rest) <= Rests(m, rest)
  {
    assert (m - n) * rest >= 0;
  }

  /** How many rests fit into less than a span. */
  function Fitting(span: int, rest: int): nat
    requires span >= 1 && rest > 0
  {
    (span - 1) / rest
  }

  lemma FittingFits(span: int, rest: int)
    requires span >= 1 && rest > 0
    ensures Rests(Fitting(span, rest), rest) < span <= Rests(Fitting(span, rest) + 1, rest)
  {
    var k := (span - 1) / rest;
    assert span - 1 == k * rest + (span - 1) % rest;
    OneMoreRest(k, rest);
  }

  lemma NoMoreFit(n: int, span: int, rest: int)
    requires span >= 1 && rest > 0 && Rests(n, rest) < span
    ensures n <= Fitting(span, rest)
  {
    hide Rests, Fitting;
    FittingFits(span, rest);
    if n > Fitting(span, rest) {
      FewerRests(Fitting(span, rest) + 1, n, rest);
    }
  }

  /** How often a locked address can fail again within the window that locked it. */
  function Relocks(c: Config): nat {
    Fitting(c.Window(), Rest(c))
  }

  function LeastCap(c: Config): nat {
    SlidingBound(c) + Relocks(c)
  }

  // ---------------------------------------------------------------------------
  // No run admits more
  // ---------------------------------------------------------------------------

  /** From this failure on, each is a rest after the one before. */
  ghost predicate Rested(times: seq<int>, from: int, rest: int) {
    forall p | 0 <= from < p < |times| :: times[p - 1] + rest <= times[p]
  }

  lemma {:induction false} RestedApart(times: seq<int>, from: int, rest: int, p: int, q: int)
    requires Rested(times, from, rest) && 0 <= from <= p <= q < |times|
    ensures times[p] + Rests(q - p, rest) <= times[q]
    decreases q
  {
    hide Rests;
    if p == q {
      OneMoreRest(0, rest);
    } else {
      RestedApart(times, from, rest, p, q - 1);
      OneMoreRest(q - 1 - p, rest);
    }
  }

  /** Failures old enough to lie, with so many rests after `at`, a span back: the longer after, the more of them. */
  ghost predicate Past(times: seq<int>, start: int, at: int, max: int, span: int, rest: int, more: nat) {
    forall i, j | 0 <= i < |times| && 0 <= j <= more && i <= start - (max - 1 + more - j) ::
      times[i] + span <= at + Rests(j, rest)
  }

  /** The shape of a sequence of failures: the last `open` of them share a window, which goes on past its lock a rest
      at a time; and the older ones lie behind it. */
  ghost predicate Shaped(times: seq<int>, open: nat, max: int, span: int, rest: int, more: nat) {
    var start := |times| - open;
    && max >= 1 && 1 <= open <= max + more && open <= |times|
    && Spaced(times, 2 * max - 2 + more, span)
    && Rested(times, start + max - 1, rest)
    && Past(times, start, times[start], max, span, rest, more)
  }

  lemma SpacedOneMore(times: seq<int>, gap: nat, span: int, now: int)
    requires Spaced(times, gap, span) && gap >= 1
    requires times != [] ==> times[|times| - 1] <= now
    requires |times| >= gap ==> times[|times| - gap] + span <= now
    ensures Spaced(times + [now], gap, span)
  {
  }

  lemma RestedOneMore(times: seq<int>, from: int, rest: int, now: int)
    requires Rested(times, from, rest) && times != [] && (from < |times| ==> times[|times| - 1] + rest <= now)
    ensures Rested(times + [now], from, rest)
  {
  }

  /** A failure past the lock comes a rest later than the ones before it could. */
  lemma PastTheLock(times: seq<int>, open: nat, max: int, span: int, rest: int, more: nat, now: int)
    requires max >= 1 && rest > 0 && Shaped(times, open, max, span, rest, more)
    requires open >= max && times[|times| - 1] + rest <= now
    ensures times[|times| - open] + Rests(open - max + 1, rest) <= now
  {
    hide Rests, Past;
    var start, last := |times| - open, |times| - 1;
    RestedApart(times, start + max - 1, rest, start + max - 1, last);
    OneMoreRest(open - max, rest);
    assert times[start] <= times[start + max - 1];
  }

  lemma ShapeGrows(times: seq<int>, open: nat, max: int, span: int, rest: int, now: int)
    requires max >= 2 && span >= 1 && rest > 0 && Shaped(times, open, max, span, rest, Fitting(span, rest))
    requires times[|times| - 1] <= now < times[|times| - open] + span
    requires open >= max ==> times[|times| - 1] + rest <= now
    ensures Shaped(times + [now], open + 1, max, span, rest, Fitting(span, rest))
  {
    hide Rests, Fitting;
    var more, start := Fitting(span, rest), |times| - open;
    var j := if open >= max then open - max + 1 else 0;
    if open >= max {
      PastTheLock(times, open, max, span, rest, more, now);
      NoMoreFit(j, span, rest);
    } else {
      OneMoreRest(0, rest);
      assert times[start] <= times[|times| - 1];
    }
    var gap := 2 * max - 2 + more;
    if |times| >= gap {
      assert times[|times| - gap] + span <= times[start] + Rests(j, rest);
    }
    SpacedOneMore(times, gap, span, now);
    RestedOneMore(times, start + max - 1, rest, now);
    hide Spaced, Rested;
    PastStays(times, start, max, span, rest, more, now);
  }

  lemma PastStays(times: seq<int>, start: int, max: int, span: int, rest: int, more: nat, now: int)
    requires 0 <= start < |times| && max >= 2 && Past(times, start, times[start], max, span, rest, more)
    ensures Past(times + [now], start, (times + [now])[start], max, span, rest, more)
  {
    hide Rests;
    assert forall i | 0 <= i < |times| :: (times + [now])[i] == times[i];
  }

  /** A window that opens finds the older failures behind it. */
  lemma OpensPast(times: seq<int>, open: nat, max: int, span: int, rest: int, now: int, i: int, j: int)
    requires max >= 2 && span >= 1 && rest > 0 && Shaped(times, open, max, span, rest, Fitting(span, rest))
    requires times[|times| - 1] <= now && times[|times| - open] + span <= now
    requires open >= max ==> times[|times| - 1] + rest <= now
    requires 0 <= i < |times| && 0 <= j <= Fitting(span, rest) && i <= |times| - (max - 1 + Fitting(span, rest) - j)
    ensures times[i] + span <= now + Rests(j, rest)
  {
    hide Rests, Fitting, Past;
    var more, start, last := Fitting(span, rest), |times| - open, |times| - 1;
    OneMoreRest(0, rest);
    FewerRests(0, j, rest);
    if i <= start {
      assert times[i] <= times[start];
    } else {
      var from := start + max - 1;
      var p := if i <= from then from else i;
      assert times[i] <= times[p];
      RestedApart(times, from, rest, p, last);
      OneMoreRest(last - p, rest);
      RestsAdd(last - p + 1, j, rest);
      FittingFits(span, rest);
      FewerRests(more + 1, last - p + 1 + j, rest);
    }
  }

  lemma ShapeOpens(times: seq<int>, open: nat, max: int, span: int, rest: int, now: int)
    requires max >= 2 && span >= 1 && rest > 0 && Shaped(times, open, max, span, rest, Fitting(span, rest))
    requires times[|times| - 1] <= now && times[|times| - open] + span <= now
    requires open >= max ==> times[|times| - 1] + rest <= now
    ensures Shaped(times + [now], 1, max, span, rest, Fitting(span, rest))
  {
    hide Rests, Fitting, Spaced, Past;
    var more, n := Fitting(span, rest), |times|;
    forall i, j | 0 <= i < n && 0 <= j <= more && i <= n - (max - 1 + more - j)
      ensures times[i] + span <= now + Rests(j, rest)
    {
      OpensPast(times, open, max, span, rest, now, i, j);
    }
    OneMoreRest(0, rest);
    SpacedOneMore(times, 2 * max - 2 + more, span, now);
    PastOpens(times, max, span, rest, more, now);
  }

  lemma PastOpens(times: seq<int>, max: int, span: int, rest: int, more: nat, now: int)
    requires max >= 2
    requires forall i, j | 0 <= i < |times| && 0 <= j <= more && i <= |times| - (max - 1 + more - j) ::
               times[i] + span <= now + Rests(j, rest)
    ensures Past(times + [now], |times|, now, max, span, rest, more)
  {
    hide Rests;
    assert forall i | 0 <= i < |times| :: (times + [now])[i] == times[i];
  }

  lemma ShapeBegins(max: int, span: int, rest: int, more: nat, now: int)
    requires max >= 2
    ensures Shaped([now], 1, max, span, rest, more)
  {
    hide Rests;
  }

  // ---------------------------------------------------------------------------
  // One attempt allowed
  // ---------------------------------------------------------------------------

  /** Every failure locks. */
  lemma RestedIsSpaced(times: seq<int>, span: int, rest: int)
    requires span >= 1 && rest > 0 && Rested(times, 0, rest)
    ensures Spaced(times, 1 + Fitting(span, rest), span)
  {
    hide Rests, Fitting;
    var more := Fitting(span, rest);
    forall i, j | 0 <= i < j < |times|
      ensures times[i] <= times[j] && (j == i + (1 + more) ==> times[i] + span <= times[j])
    {
      RestedApart(times, 0, rest, i, j);
      OneMoreRest(0, rest);
      FewerRests(0, j - i, rest);
      FittingFits(span, rest);
    }
    hide Rested;
  }

  // ---------------------------------------------------------------------------
  // Records
  // ---------------------------------------------------------------------------

  ghost predicate Tallies(times: seq<int>, a: Attempts, c: Config) {
    if c.MaxAttempts() == 1 then Rested(times, 0, Rest(c)) && a.failures >= 1
    else
      && Shaped(times, a.failures, c.MaxAttempts(), c.Window(), Rest(c), Relocks(c))
      && a.firstFailureAt == Some(times[|times| - a.failures])
  }

  /** What the record of an address says about the failures it has admitted so far. */
  ghost predicate Accounts(times: seq<int>, guard: Guard, key: string, c: Config) {
    if key !in guard then times == []
    else
      && times != [] && Tallies(times, guard[key], c)
      && (guard[key].failures >= c.MaxAttempts() ==> guard[key].lockedUntil == Some(times[|times| - 1] + c.Lockout()))
  }

  /** A lock lasts until the last second of its lockout begins: the check truncates the time left to whole seconds. */
  lemma LockIsRested(guard: Guard, key: string, now: int, last: int, c: Config)
    requires key in guard && guard[key].lockedUntil == Some(last + c.Lockout())
    ensures Check(guard, key, now, c).Admitted? <==> last + Rest(c) <= now
  {
  }

  lemma TallyStarts(now: int, c: Config)
    ensures Tallies([now], Missed(NO_ATTEMPTS, now, c), c)
  {
    if c.MaxAttempts() > 1 {
      ShapeBegins(c.MaxAttempts(), c.Window(), Rest(c), Relocks(c), now);
    }
    hide Shaped, Rest, Relocks;
  }

  lemma TallyGrows(times: seq<int>, a: Attempts, now: int, c: Config)
    requires times != [] && Tallies(times, a, c) && times[|times| - 1] <= now
    requires a.failures >= c.MaxAttempts() ==> times[|times| - 1] + Rest(c) <= now
    ensures Tallies(times + [now], Missed(a, now, c), c)
  {
    hide Rest, Fitting, Shaped;
    if c.MaxAttempts() == 1 {
      RestedOneMore(times, 0, Rest(c), now);
    } else {
      InOrder(times, a.failures, c);
      if Recent(a, now, c) {
        ShapeGrows(times, a.failures, c.MaxAttempts(), c.Window(), Rest(c), now);
      } else {
        ShapeOpens(times, a.failures, c.MaxAttempts(), c.Window(), Rest(c), now);
      }
    }
    hide Rested;
  }

  lemma InOrder(times: seq<int>, open: nat, c: Config)
    requires Shaped(times, open, c.MaxAttempts(), c.Window(), Rest(c), Relocks(c))
    ensures 1 <= open <= |times|
  {
  }

  lemma AccountsAttempt(times: seq<int>, guard: Guard, key: string, now: int, c: Config)
    requires Accounts(times, guard, key, c) && (times != [] ==> times[|times| - 1] <= now)
    requires Check(guard, key, now, c).Admitted?
    ensures Accounts(times + [now], Recorded(guard, key, now, c, false), key, c)
  {
    hide Rest, Tallies;
    if key !in guard {
      assert times + [now] == [now];
      TallyStarts(now, c);
    } else {
      if guard[key].failures >= c.MaxAttempts() {
        LockIsRested(guard, key, now, times[|times| - 1], c);
      }
      hide Check;
      TallyGrows(times, guard[key], now, c);
    }
  }

  // ---------------------------------------------------------------------------
  // Runs
  // ---------------------------------------------------------------------------

  lemma AccountsStep(times: seq<int>, guard: Guard, op: Op, key: string, c: Config)
    requires Accounts(times, guard, key, c)
    requires op.key == key ==> op.Attempt? || op.Ask?
    requires times != [] ==> times[|times| - 1] <= op.at
    ensures var more := times + StepTimes(guard, op, key, c);
            Accounts(more, Step(guard, op, c, false).0, key, c) && (more != [] ==> more[|more| - 1] <= op.at)
  {
    hide Tallies;
    if StepTimes(guard, op, key, c) != [] {
      AccountsAttempt(times, guard, key, op.at, c);
    } else {
      assert times + StepTimes(guard, op, key, c) == times;
    }
  }

  lemma NothingMoreToCount(times: seq<int>, guard: Guard, key: string, c: Config)
    requires Accounts(times, guard, key, c)
    ensures Spaced(times, LeastCap(c), c.Window()) && times + RunTimes(guard, [], key, c) == times
  {
    if key in guard && c.MaxAttempts() == 1 {
      RestedIsSpaced(times, c.Window(), Rest(c));
    }
    hide Rest, Fitting, Past, Rested;
  }

  lemma {:induction false} CountedRun(times: seq<int>, guard: Guard, ops: seq<Op>, key: string, c: Config,
                                      all: seq<int>)
    requires all == times + RunTimes(guard, ops, key, c) && Accounts(times, guard, key, c)
    requires Ordered(ops) && OnlyAttempts(ops, key)
    requires times != [] && ops != [] ==> times[|times| - 1] <= ops[0].at
    ensures Spaced(all, LeastCap(c), c.Window())
    decreases |ops|
  {
    hide Step, Answers, FailureTimes, Accounts, Spaced, LeastCap;
    if ops == [] {
      NothingMoreToCount(times, guard, key, c);
      assert all == times;
    } else {
      var next, more := Step(guard, ops[0], c, false).0, times + StepTimes(guard, ops[0], key, c);
      RestOfRun(ops, key);
      AccountsStep(times, guard, ops[0], key, c);
      assert all == more + RunTimes(next, ops[1..], key, c) by {
        RunTimesUnroll(guard, ops, key, c);
      }
      CountedRun(more, next, ops[1..], key, c, all);
    }
  }

  lemma CapHoldsForRun(ops: seq<Op>, key: string, lo: int, c: Config)
    requires Ordered(ops) && OnlyAttempts(ops, key)
    ensures FailuresWithin(ops, key, lo, c) <= LeastCap(c)
  {
    hide RunTimes, Spaced, Ordered, OnlyAttempts, FailuresWithin, CountWithin, LeastCap;
    var none: seq<int> := [];
    assert none + RunTimes(map[], ops, key, c) == RunTimes(map[], ops, key, c);
    CountedRun(none, map[], ops, key, c, RunTimes(map[], ops, key, c));
    HoardedCount(ops, key, lo, c);
    SpacedCount(RunTimes(map[], ops, key, c), LeastCap(c), c.Window(), lo);
  }

  lemma CapHolds(c: Config)
    ensures BoundHolds(c, LeastCap(c))
  {
    forall ops: seq<Op>, key: string, lo: int | Ordered(ops) && OnlyAttempts(ops, key)
      ensures FailuresWithin(ops, key, lo, c) <= LeastCap(c)
    {
      CapHoldsForRun(ops, key, lo, c);
    }
    hide LeastCap;
  }

  // ---------------------------------------------------------------------------
  // Some run attains it
  // ---------------------------------------------------------------------------

  /** The n-th moment at which the lock lets go, when the first window's successor fills at once. */
  function LetGo(n: int, c: Config): int {
    c.Window() + Rests(n, Rest(c))
  }

  /** A window left one miss short of a lock, the next filled at its first moment, and then a miss as often as the
      lock lets go. */
  function Persisting(key: string, n: nat, c: Config): seq<Op> {
    if n == 0 then Opening(key, c) + Repeat(Attempt(key, c.Window()), c.MaxAttempts())
    else Persisting(key, n - 1, c) + Repeat(Attempt(key, LetGo(n, c)), 1)
  }

  /** The last of those moments is still within the window: no number of rests ends exactly with it. */
  lemma RestsMissTheEnd(c: Config)
    ensures Rests(Relocks(c), Rest(c)) < c.Window() - 1
  {
    var k, rest, minutes := Relocks(c), Rest(c), c.LockoutMinutes();
    FittingFits(c.Window(), rest);
    if c.clock.WholeSeconds? {
      assert rest == 60 * minutes;
      RestsOf(k, minutes, 60, 0);
    } else {
      assert rest == 60_000_000_000 * minutes - 999_999_999;
      RestsOf(k, minutes, 60_000_000_000, 999_999_999);
      if k >= 17 {
        FewerRests(17, k, rest);
      }
    }
    hide Rests, Fitting;
  }

  lemma RestsOf(n: int, minutes: int, minute: int, less: int)
    ensures Rests(n, minute * minutes - less) == minute * (n * minutes) - less * n
  {
  }

  lemma {:induction false} PersistingInOrder(key: string, n: nat, c: Config)
    ensures Ordered(Persisting(key, n, c)) && OnlyAttempts(Persisting(key, n, c), key)
    ensures var ops := Persisting(key, n, c); ops != [] && ops[|ops| - 1].at == LetGo(n, c)
  {
    hide Rests, Rest;
    OneMoreRest(n - 1, Rest(c));
    if n > 0 {
      PersistingInOrder(key, n - 1, c);
    }
  }

  /** What the address has counted by then. */
  ghost predicate Persisted(key: string, n: nat, c: Config) {
    var g := Final(map[], Persisting(key, n, c), c);
    && CountWithin(RunTimes(map[], Persisting(key, n, c), key, c), c.Window() - 1, 2 * c.Window() - 1)
       == SlidingBound(c) + n
    && key in g && g[key].failures >= c.MaxAttempts() && g[key].firstFailureAt == Some(c.Window())
    && g[key].lockedUntil == Some(LetGo(n, c) + c.Lockout())
  }

  lemma FillingCounts(key: string, c: Config)
    ensures Persisted(key, 0, c)
  {
    hide RunTimes, Final, Opening, Rest;
    var m, w := c.MaxAttempts(), c.Window();
    var s, t := Opening(key, c), Repeat(Attempt(key, w), m);
    OneMoreRest(0, Rest(c));
    OpeningLeavesRoom(key, c);
    var g := Final(map[], s, c);
    Burst(g, key, w, m, c);
    AllWithin(w, m, w - 1, 2 * w - 1);
    RunsConcat(map[], s, t, key, c);
    CountSplits(RunTimes(map[], s, key, c), RunTimes(g, t, key, c), w - 1, 2 * w - 1);
  }

  /** One more miss, as soon as the lock lets go. */
  lemma MissAgain(guard: Guard, key: string, at: int, c: Config)
    requires key in guard && guard[key].failures >= c.MaxAttempts() && guard[key].firstFailureAt == Some(c.Window())
    requires guard[key].lockedUntil == Some(at - Rest(c) + c.Lockout()) && c.Window() <= at < 2 * c.Window() - 1
    ensures RunTimes(guard, Repeat(Attempt(key, at), 1), key, c) == [at]
    ensures var g := Final(guard, Repeat(Attempt(key, at), 1), c);
            && key in g && g[key].failures >= c.MaxAttempts() && g[key].firstFailureAt == Some(c.Window())
            && g[key].lockedUntil == Some(at + c.Lockout())
  {
    var ops := Repeat(Attempt(key, at), 1);
    LockIsRested(guard, key, at, at - Rest(c), c);
    RunTimesUnroll(guard, ops, key, c);
    hide Rest, Check;
    assert ops[1..] == [];
  }

  lemma {:induction false} PersistingCounts(key: string, n: nat, c: Config)
    requires n <= Relocks(c)
    ensures Persisted(key, n, c)
  {
    hide Rests, Rest, RunTimes, Final, Relocks;
    if n == 0 {
      FillingCounts(key, c);
    } else {
      PersistingCounts(key, n - 1, c);
      var w, at, before := c.Window(), LetGo(n, c), Persisting(key, n - 1, c);
      OneMoreRest(n - 1, Rest(c));
      OneMoreRest(0, Rest(c));
      FewerRests(0, n, Rest(c));
      FewerRests(n, Relocks(c), Rest(c));
      RestsMissTheEnd(c);
      MissAgain(Final(map[], before, c), key, at, c);
      RunsConcat(map[], before, Repeat(Attempt(key, at), 1), key, c);
      CountSplits(RunTimes(map[], before, key, c), [at], w - 1, 2 * w - 1);
    }
  }

  /** The caps that hold are exactly those from this one on: max(1, 2 * max - 2), and one more for every time that a
      lock can let go within the window it locks - as once in the shipped fifteen minutes on a clock finer than a
      second. */
  lemma CapExactly(c: Config, bound: int)
    ensures BoundHolds(c, bound) <==> LeastCap(c) <= bound
  {
    hide Persisting, FailuresWithin, RunTimes, Relocks;
    var key := "admin:203.0.113.7";
    var ops := Persisting(key, Relocks(c), c);
    CapHolds(c);
    PersistingInOrder(key, Relocks(c), c);
    PersistingCounts(key, Relocks(c), c);
    HoardedCount(ops, key, c.Window() - 1, c);
    assert FailuresWithin(ops, key, c.Window() - 1, c) == LeastCap(c);
  }

  lemma RelocksExactly(c: Config)
    ensures Relocks(c) == 0 <==> LockOutlivesWindow(c)
  {
    var rest, span := Rest(c), c.Window();
    FittingFits(span, rest);
    OneMoreRest(0, rest);
    if span <= rest {
      if Relocks(c) > 0 {
        FewerRests(1, Relocks(c), rest);
      }
    }
    hide Rests, Fitting;
  }

  /** The lockout holds every fifteen minutes to max(1, 2 * max - 2) failures exactly when a lock outlives a window.
      The shipped default of fifteen minutes does so only on a clock of whole seconds. */
  lemma SlidingBoundExactly(c: Config)
    ensures BoundHolds(c, SlidingBound(c)) <==> LockOutlivesWindow(c)
  {
    CapExactly(c, SlidingBound(c));
    RelocksExactly(c);
    hide Relocks, LockOutlivesWindow, BoundHolds, SlidingBound;
  }
}
