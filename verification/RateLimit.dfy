/** The login lockout of src/ratelimit.rs: a tumbling window of failures per address, a lock, and a cleanup
    that runs whenever a failure is recorded. Times are integers on a clock that counts either whole seconds
    or nanoseconds; the difference matters, because the lock is tested on truncated seconds. */
module RateLimit {
  import opened Options

  const WINDOW_MINUTES: int := 15

  datatype Clock = WholeSeconds | Nanoseconds

  datatype Config = Config(loginMaxAttempts: nat, loginLockoutMinutes: int, clock: Clock) {
    function Second(): (s: int)
      ensures s > 0
    {
      if clock.WholeSeconds? then 1 else 1_000_000_000
    }

    function MaxAttempts(): (m: int)
      ensures m >= 1
    {
      if loginMaxAttempts < 1 then 1 else loginMaxAttempts
    }

    function LockoutMinutes(): int {
      if loginLockoutMinutes < 1 then 1 else loginLockoutMinutes
    }

    function Lockout(): int {
      if clock.WholeSeconds? then LockoutMinutes() * 60 else LockoutMinutes() * 60_000_000_000
    }

    function Window(): (w: int)
      ensures w > 1
    {
      if clock.WholeSeconds? then WINDOW_MINUTES * 60 else WINDOW_MINUTES * 60_000_000_000
    }
  }

  datatype Attempts = Attempts(failures: nat, firstFailureAt: Option<int>, lockedUntil: Option<int>)

  type Guard = map<string, Attempts>

  datatype Verdict = Admitted | LockedOut(minutes: int)

  const NO_ATTEMPTS := Attempts(0, None, None)

  /** A duration in whole seconds, truncated toward zero. */
  function NumSeconds(duration: int, c: Config): int {
    if duration >= 0 then duration / c.Second() else -((-duration) / c.Second())
  }

  function Check(guard: Guard, key: string, now: int, c: Config): Verdict {
    if key !in guard || guard[key].lockedUntil.None? then Admitted
    else
      var remaining := NumSeconds(guard[key].lockedUntil.value - now, c);
      if remaining <= 0 then Admitted else LockedOut(remaining / 60 + 1)
  }

  predicate Recent(a: Attempts, now: int, c: Config) {
    a.firstFailureAt.Some? && now - a.firstFailureAt.value < c.Window()
  }

  predicate Locked(a: Attempts, now: int) {
    a.lockedUntil.Some? && a.lockedUntil.value > now
  }

  /** The entries the cleanup keeps. */
  function Retained(guard: Guard, now: int, c: Config): Guard {
    map key | key in guard && (Recent(guard[key], now, c) || Locked(guard[key], now)) :: guard[key]
  }

  /** One more failure on an address's record. */
  function Missed(a: Attempts, now: int, c: Config): Attempts {
    var counted := if Recent(a, now, c) then a else a.(failures := 0, firstFailureAt := Some(now));
    var more := counted.(failures := counted.failures + 1);
    if more.failures >= c.MaxAttempts() then more.(lockedUntil := Some(now + c.Lockout())) else more
  }

  /** The guard after a failure; `tidy` says whether the cleanup runs first, as it does in the server. */
  function Recorded(guard: Guard, key: string, now: int, c: Config, tidy: bool): Guard {
    var kept := if tidy then Retained(guard, now, c) else guard;
    kept[key := Missed(if key in kept then kept[key] else NO_ATTEMPTS, now, c)]
  }

  /** The deadline reported to the caller when this failure was the last straw. */
  function Deadline(a: Attempts, c: Config): Option<int> {
    if a.failures >= c.MaxAttempts() then a.lockedUntil else None
  }

  class LoginGuard {
    var entries: Guard
    const config: Config

    constructor (config: Config)
      ensures this.config == config && entries == map[]
    {
      this.config := config;
      entries := map[];
    }

    method CheckAttempt(key: string, now: int) returns (verdict: Verdict)
      ensures verdict == Check(entries, key, now, config)
    {
      if key !in entries {
        return Admitted;
      }
      var until := entries[key].lockedUntil;
      if until.None? {
        return Admitted;
      }
      var remaining := NumSeconds(until.value - now, config);
      if remaining <= 0 {
        return Admitted;
      }
      return LockedOut(remaining / 60 + 1);
    }

    method RecordFailure(key: string, now: int) returns (failures: nat, deadline: Option<int>)
      modifies this
      ensures entries == Recorded(old(entries), key, now, config, true)
      ensures failures == entries[key].failures && deadline == Deadline(entries[key], config)
    {
      entries := map k | k in entries && (Recent(entries[k], now, config) || Locked(entries[k], now)) :: entries[k];
      var entry := if key in entries then entries[key] else NO_ATTEMPTS;
      if entry.firstFailureAt.None? || now - entry.firstFailureAt.value >= config.Window() {
        entry := entry.(failures := 0, firstFailureAt := Some(now));
      }
      entry := entry.(failures := entry.failures + 1);
      deadline := None;
      if entry.failures >= config.MaxAttempts() {
        entry := entry.(lockedUntil := Some(now + config.Lockout()));
        deadline := entry.lockedUntil;
      }
      entries := entries[key := entry];
      failures := entry.failures;
    }

    method RecordSuccess(key: string)
      modifies this
      ensures entries == old(entries) - {key}
    {
      entries := entries - {key};
    }
  }

  // ---------------------------------------------------------------------------
  // Runs
  // ---------------------------------------------------------------------------

  /** What the sign-in forms do to the guard. An `Attempt` is a failing sign-in: the check, and when it
      admits, the failure recorded in the same step. */
  datatype Op =
    | Ask(key: string, at: int)
    | Fail(key: string, at: int)
    | Attempt(key: string, at: int)
    | Succeed(key: string, at: int)

  datatype Answer =
    | Checked(verdict: Verdict)
    | Counted(failures: nat, deadline: Option<int>)
    | Cleared

  function Failure(guard: Guard, key: string, at: int, c: Config, tidy: bool): (Guard, Answer) {
    var next := Recorded(guard, key, at, c, tidy);
    (next, Counted(next[key].failures, Deadline(next[key], c)))
  }

  function Step(guard: Guard, op: Op, c: Config, tidy: bool): (Guard, Answer) {
    match op
    case Ask(key, at) => (guard, Checked(Check(guard, key, at, c)))
    case Fail(key, at) => Failure(guard, key, at, c, tidy)
    case Attempt(key, at) =>
      var verdict := Check(guard, key, at, c);
      if verdict.Admitted? then Failure(guard, key, at, c, tidy) else (guard, Checked(verdict))
    case Succeed(key, at) => (guard - {key}, Cleared)
  }

  function Answers(guard: Guard, ops: seq<Op>, c: Config, tidy: bool): (r: seq<Answer>)
    ensures |r| == |ops|
    decreases |ops|
  {
    if ops == [] then []
    else
      var (next, answer) := Step(guard, ops[0], c, tidy);
      [answer] + Answers(next, ops[1..], c, tidy)
  }

  predicate Ordered(ops: seq<Op>) {
    forall i, j | 0 <= i < j < |ops| :: ops[i].at <= ops[j].at
  }

  // ---------------------------------------------------------------------------
  // The cleanup is invisible
  // ---------------------------------------------------------------------------

  function Unexpired(until: Option<int>, now: int): Option<int> {
    if until.Some? && until.value > now then until else None
  }

  /** What a tidied guard and a hoarding guard agree on from `now` on: what was dropped is dead, and what both
      hold differs at most in a lock that has expired. */
  ghost predicate Agree(tidy: Guard, full: Guard, now: int, c: Config) {
    && (forall key | key in tidy ::
          && key in full
          && full[key].failures == tidy[key].failures
          && full[key].firstFailureAt == tidy[key].firstFailureAt
          && Unexpired(full[key].lockedUntil, now) == Unexpired(tidy[key].lockedUntil, now))
    && (forall key | key in full && key !in tidy :: !Recent(full[key], now, c) && !Locked(full[key], now))
  }

  lemma AgreeLater(tidy: Guard, full: Guard, now: int, later: int, c: Config)
    requires Agree(tidy, full, now, c) && now <= later
    ensures Agree(tidy, full, later, c)
  {
  }

  lemma AgreeOnStep(tidy: Guard, full: Guard, op: Op, c: Config)
    requires Agree(tidy, full, op.at, c)
    ensures Step(tidy, op, c, true).1 == Step(full, op, c, false).1
    ensures Agree(Step(tidy, op, c, true).0, Step(full, op, c, false).0, op.at, c)
  {
    AgreeOnCheck(tidy, full, op.key, op.at, c);
    if op.Fail? || op.Attempt? {
      AgreeOnFailure(tidy, full, op.key, op.at, c);
    }
  }

  lemma AgreeOnCheck(tidy: Guard, full: Guard, key: string, now: int, c: Config)
    requires Agree(tidy, full, now, c)
    ensures Check(tidy, key, now, c) == Check(full, key, now, c)
  {
  }

  lemma AgreeOnFailure(tidy: Guard, full: Guard, key: string, now: int, c: Config)
    requires Agree(tidy, full, now, c)
    ensures Failure(tidy, key, now, c, true).1 == Failure(full, key, now, c, false).1
    ensures Agree(Failure(tidy, key, now, c, true).0, Failure(full, key, now, c, false).0, now, c)
  {
  }

  /** For every sequence of checks, failures and successes at non-decreasing times, dropping dead entries
      changes no answer. */
  lemma {:induction false} CleanupIsInvisible(ops: seq<Op>, c: Config)
    requires Ordered(ops)
    ensures Answers(map[], ops, c, true) == Answers(map[], ops, c, false)
  {
    if ops != [] {
      AgreeOnRun(map[], map[], ops, c);
    }
  }

  lemma {:induction false} AgreeOnRun(tidy: Guard, full: Guard, ops: seq<Op>, c: Config)
    requires Ordered(ops)
    requires ops != [] ==> Agree(tidy, full, ops[0].at, c)
    ensures Answers(tidy, ops, c, true) == Answers(full, ops, c, false)
    decreases |ops|
  {
    if ops != [] {
      AgreeOnStep(tidy, full, ops[0], c);
      var (tidy', _) := Step(tidy, ops[0], c, true);
      var (full', _) := Step(full, ops[0], c, false);
      if |ops| > 1 {
        AgreeLater(tidy', full', ops[0].at, ops[1].at, c);
      }
      AgreeOnRun(tidy', full', ops[1..], c);
    }
  }

  // ---------------------------------------------------------------------------
  // The sliding bound
  // ---------------------------------------------------------------------------

  /** The times at which a failing attempt by `key` was admitted. */
  function FailureTimes(ops: seq<Op>, answers: seq<Answer>, key: string): seq<int>
    requires |ops| == |answers|
  {
    if ops == [] then []
    else
      (if ops[0].Attempt? && ops[0].key == key && answers[0].Counted? then [ops[0].at] else [])
      + FailureTimes(ops[1..], answers[1..], key)
  }

  function CountWithin(times: seq<int>, lo: int, hi: int): (n: nat)
    ensures n <= |times|
  {
    if times == [] then 0
    else (if lo <= times[0] < hi then 1 else 0) + CountWithin(times[1..], lo, hi)
  }

  /** The most failed attempts any fifteen minutes can hold. */
  function SlidingBound(c: Config): nat {
    if c.MaxAttempts() == 1 then 1 else 2 * c.MaxAttempts() - 2
  }

  /** A lock outlives a whole window, even though the check lets a caller in during its last fraction of a
      second. */
  predicate LockOutlivesWindow(c: Config) {
    c.LockoutMinutes() > WINDOW_MINUTES || (c.LockoutMinutes() == WINDOW_MINUTES && c.clock.WholeSeconds?)
  }

  predicate OnlyAttempts(ops: seq<Op>, key: string) {
    forall i | 0 <= i < |ops| && ops[i].key == key :: ops[i].Attempt? || ops[i].Ask?
  }

  /** Failed attempts by `key` admitted from `lo` on, for one window's length, when `ops` runs from boot. */
  function FailuresWithin(ops: seq<Op>, key: string, lo: int, c: Config): nat {
    CountWithin(FailureTimes(ops, Answers(map[], ops, c, true), key), lo, lo + c.Window())
  }

  ghost predicate Spaced(times: seq<int>, gap: nat, span: int) {
    && (forall i, j | 0 <= i < j < |times| :: times[i] <= times[j])
    && (forall i, j | 0 <= i && j == i + gap && j < |times| :: times[i] + span <= times[j])
  }

  /** The failure one step admits by `key`, if it admits one. */
  function StepTimes(guard: Guard, op: Op, key: string, c: Config): seq<int> {
    if op.Attempt? && op.key == key && Check(guard, key, op.at, c).Admitted? then [op.at] else []
  }

  /** The failure times of a run of the hoarding guard. */
  function RunTimes(guard: Guard, ops: seq<Op>, key: string, c: Config): seq<int> {
    FailureTimes(ops, Answers(guard, ops, c, false), key)
  }

  lemma RunTimesUnroll(guard: Guard, ops: seq<Op>, key: string, c: Config)
    requires ops != []
    ensures RunTimes(guard, ops, key, c)
            == StepTimes(guard, ops[0], key, c) + RunTimes(Step(guard, ops[0], c, false).0, ops[1..], key, c)
  {
  }

  lemma RestOfRun(ops: seq<Op>, key: string)
    requires ops != [] && Ordered(ops) && OnlyAttempts(ops, key)
    ensures Ordered(ops[1..]) && OnlyAttempts(ops[1..], key)
    ensures |ops| > 1 ==> ops[0].at <= ops[1].at
    ensures ops[0].key == key ==> ops[0].Attempt? || ops[0].Ask?
  {
  }

  lemma {:induction false} CountSplits(s: seq<int>, t: seq<int>, lo: int, hi: int)
    ensures CountWithin(s + t, lo, hi) == CountWithin(s, lo, hi) + CountWithin(t, lo, hi)
  {
    if s == [] {
      assert s + t == t;
    } else {
      assert (s + t)[1..] == s[1..] + t;
      CountSplits(s[1..], t, lo, hi);
    }
  }

  lemma {:induction false} NoneWithin(s: seq<int>, lo: int, hi: int)
    requires forall i | 0 <= i < |s| :: hi <= s[i]
    ensures CountWithin(s, lo, hi) == 0
  {
    if s != [] {
      NoneWithin(s[1..], lo, hi);
    }
  }

  lemma {:induction false} SpacedCount(times: seq<int>, gap: nat, span: int, lo: int)
    requires Spaced(times, gap, span)
    ensures CountWithin(times, lo, lo + span) <= gap
  {
    if times != [] {
      if times[0] < lo {
        SpacedCount(times[1..], gap, span, lo);
      } else if gap < |times| {
        assert times == times[..gap] + times[gap..];
        CountSplits(times[..gap], times[gap..], lo, lo + span);
        assert times[0] + span <= times[gap];
        NoneWithin(times[gap..], lo, lo + span);
      }
    }
  }

  /** No run of the guard admits more than `bound` failed attempts by one address within fifteen minutes. The
      run starts from boot; a success would start the count again, so the address has none. */
  ghost predicate BoundHolds(c: Config, bound: int) {
    forall ops: seq<Op>, key: string, lo: int | Ordered(ops) && OnlyAttempts(ops, key) ::
      FailuresWithin(ops, key, lo, c) <= bound
  }

  lemma HoardedCount(ops: seq<Op>, key: string, lo: int, c: Config)
    requires Ordered(ops)
    ensures FailuresWithin(ops, key, lo, c) == CountWithin(RunTimes(map[], ops, key, c), lo, lo + c.Window())
  {
    CleanupIsInvisible(ops, c);
  }

  // ---------------------------------------------------------------------------
  // Bursts
  // ---------------------------------------------------------------------------

  function Repeat(op: Op, n: nat): (r: seq<Op>)
    ensures |r| == n
    ensures forall i | 0 <= i < n :: r[i] == op
  {
    seq(n, _ => op)
  }

  function Final(guard: Guard, ops: seq<Op>, c: Config): Guard
    decreases |ops|
  {
    if ops == [] then guard else Final(Step(guard, ops[0], c, false).0, ops[1..], c)
  }

  lemma {:induction false} RunsConcat(guard: Guard, s: seq<Op>, t: seq<Op>, key: string, c: Config)
    ensures RunTimes(guard, s + t, key, c) == RunTimes(guard, s, key, c) + RunTimes(Final(guard, s, c), t, key, c)
    ensures Final(guard, s + t, c) == Final(Final(guard, s, c), t, c)
    decreases |s|
  {
    if s == [] {
      assert s + t == t;
    } else {
      assert (s + t)[1..] == s[1..] + t;
      RunTimesUnroll(guard, s, key, c);
      RunTimesUnroll(guard, s + t, key, c);
      RunsConcat(Step(guard, s[0], c, false).0, s[1..], t, key, c);
    }
  }

  /** Misses at one moment by an address with `before` of them already in its open window: every one is
      admitted, and the `max`-th locks. */
  lemma {:induction false} Burst(guard: Guard, key: string, at: int, n: nat, c: Config)
    requires n >= 1
    requires Check(guard, key, at, c).Admitted?
    requires Open(guard, key, at, c) + n <= c.MaxAttempts()
    ensures RunTimes(guard, Repeat(Attempt(key, at), n), key, c) == seq(n, _ => at)
    ensures var end := Final(guard, Repeat(Attempt(key, at), n), c);
            && key in end && end[key].failures == Open(guard, key, at, c) + n
            && end[key].firstFailureAt
               == (if key in guard && Recent(guard[key], at, c) then guard[key].firstFailureAt else Some(at))
            && (end[key].failures == c.MaxAttempts() ==> end[key].lockedUntil == Some(at + c.Lockout()))
            && (end[key].failures < c.MaxAttempts() && key !in guard ==> end[key].lockedUntil == None)
            && (end[key].failures < c.MaxAttempts() && key in guard ==> end[key].lockedUntil == guard[key].lockedUntil)
    decreases n
  {
    var ops := Repeat(Attempt(key, at), n);
    var next := Step(guard, ops[0], c, false).0;
    assert ops[1..] == Repeat(Attempt(key, at), n - 1);
    RunTimesUnroll(guard, ops, key, c);
    assert next[key].failures == Open(guard, key, at, c) + 1;
    assert Recent(next[key], at, c);
    if n > 1 {
      Burst(next, key, at, n - 1, c);
    }
    assert [at] + seq(n - 1, _ => at) == seq(n, _ => at);
  }

  /** The failures that still count for an address. */
  function Open(guard: Guard, key: string, now: int, c: Config): nat {
    if key in guard && Recent(guard[key], now, c) then guard[key].failures else 0
  }

  lemma {:induction false} AllWithin(at: int, n: nat, lo: int, hi: int)
    requires lo <= at < hi
    ensures CountWithin(seq(n, _ => at), lo, hi) == n
  {
    if n > 0 {
      assert seq(n, _ => at)[1..] == seq(n - 1, _ => at);
      AllWithin(at, n - 1, lo, hi);
    }
  }

  /** A window left one miss short of a lock: one miss at zero and `max - 2` in its last instant. */
  function Opening(key: string, c: Config): seq<Op> {
    if c.MaxAttempts() == 1 then []
    else [Attempt(key, 0)] + Repeat(Attempt(key, c.Window() - 1), c.MaxAttempts() - 2)
  }

  lemma OpeningLeavesRoom(key: string, c: Config)
    ensures var w, g := c.Window(), Final(map[], Opening(key, c), c);
            && Check(g, key, w, c).Admitted? && Open(g, key, w, c) == 0 && (key in g ==> !Recent(g[key], w, c))
            && CountWithin(RunTimes(map[], Opening(key, c), key, c), w - 1, 2 * w - 1)
               == if c.MaxAttempts() == 1 then 0 else c.MaxAttempts() - 2
  {
    var m, w := c.MaxAttempts(), c.Window();
    if m > 1 {
      var first, more := Repeat(Attempt(key, 0), 1), Repeat(Attempt(key, w - 1), m - 2);
      Burst(map[], key, 0, 1, c);
      assert Opening(key, c) == first + more;
      RunsConcat(map[], first, more, key, c);
      if m > 2 {
        Burst(Final(map[], first, c), key, w - 1, m - 2, c);
        AllWithin(w - 1, m - 2, w - 1, 2 * w - 1);
      }
      CountSplits([0], RunTimes(Final(map[], first, c), more, key, c), w - 1, 2 * w - 1);
    }
  }
}
