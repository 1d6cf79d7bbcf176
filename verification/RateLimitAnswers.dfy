/** What the guard answers, said on the clock and the settings, and what the answers depend on: the address's own
    operations since its last success, and nothing else. */
module RateLimitAnswers {
  import opened Options
  import opened RateLimit

  /** An address is turned away exactly while at least one whole second of its lock is left, and is told the least
      number of minutes that is more than what is left. */
  lemma RefusedExactly(guard: Guard, key: string, now: int, c: Config)
    ensures var verdict := Check(guard, key, now, c);
            && (verdict.LockedOut? <==>
                  key in guard && guard[key].lockedUntil.Some? && guard[key].lockedUntil.value - now >= c.Second())
            && (verdict.LockedOut? ==>
                  60 * c.Second() * (verdict.minutes - 1) <= guard[key].lockedUntil.value - now
                  < 60 * c.Second() * verdict.minutes)
  {
    if key in guard && guard[key].lockedUntil.Some? {
      var left := guard[key].lockedUntil.value - now;
      if left >= 0 {
        var seconds := left / c.Second();
        assert c.Second() * seconds <= left < c.Second() * (seconds + 1);
        var minutes := seconds / 60;
        assert 60 * minutes <= seconds < 60 * (minutes + 1);
      }
    }
  }

  /** A failure is the first of a window, or one more than the window has already. It locks the address from now for
      the configured minutes, and says so, exactly if the window now holds the configured number; a setting below one
      counts as one. Nobody else's record changes but for being tidied away. */
  lemma FailureAnswersExactly(guard: Guard, key: string, now: int, c: Config, tidy: bool)
    ensures var (next, answer) := Step(guard, Fail(key, now), c, tidy);
            var record := if key in guard then guard[key] else NO_ATTEMPTS;
            var within := record.firstFailureAt.Some? && now - record.firstFailureAt.value < 15 * 60 * c.Second();
            var locked := answer.Counted? && answer.failures >= c.loginMaxAttempts;
            var until := now + 60 * c.Second() * if c.loginLockoutMinutes < 1 then 1 else c.loginLockoutMinutes;
            && answer == Counted(if within then record.failures + 1 else 1, if locked then Some(until) else None)
            && key in next && next[key].failures == answer.failures
            && next[key].firstFailureAt == (if within then record.firstFailureAt else Some(now))
            && (locked ==> next[key].lockedUntil == Some(until))
            && (!locked ==> Unexpired(next[key].lockedUntil, now) == Unexpired(record.lockedUntil, now))
            && next.Keys <= guard.Keys + {key} && (!tidy ==> next.Keys == guard.Keys + {key})
            && forall other | other in next && other != key :: next[other] == guard[other]
  {
  }

  /** An attempt is a check, and a failure if the check admits it. */
  lemma AttemptAnswersExactly(guard: Guard, key: string, now: int, c: Config, tidy: bool)
    ensures Step(guard, Attempt(key, now), c, tidy)
            == if Step(guard, Ask(key, now), c, tidy).1.verdict.Admitted? then Step(guard, Fail(key, now), c, tidy)
               else Step(guard, Ask(key, now), c, tidy)
  {
  }

  // ---------------------------------------------------------------------------
  // One address at a time
  // ---------------------------------------------------------------------------

  /** The operations of one address, in order. */
  function Own(ops: seq<Op>, key: string): (r: seq<Op>)
    ensures forall op | op in r :: op in ops && op.key == key
  {
    if ops == [] then [] else (if ops[0].key == key then [ops[0]] else []) + Own(ops[1..], key)
  }

  /** The answers its operations were given. */
  function OwnAnswers(ops: seq<Op>, answers: seq<Answer>, key: string): seq<Answer>
    requires |ops| == |answers|
  {
    if ops == [] then []
    else (if ops[0].key == key then [answers[0]] else []) + OwnAnswers(ops[1..], answers[1..], key)
  }

  /** The guard after a run of the server. */
  function After(guard: Guard, ops: seq<Op>, c: Config, tidy: bool): Guard
    decreases |ops|
  {
    if ops == [] then guard else After(Step(guard, ops[0], c, tidy).0, ops[1..], c, tidy)
  }

  predicate SameRecord(g: Guard, h: Guard, key: string) {
    (key in g <==> key in h) && (key in g ==> g[key] == h[key])
  }

  lemma OwnStep(g: Guard, h: Guard, op: Op, key: string, c: Config)
    requires SameRecord(g, h, key)
    ensures op.key == key ==>
              Step(g, op, c, false).1 == Step(h, op, c, false).1
              && SameRecord(Step(g, op, c, false).0, Step(h, op, c, false).0, key)
    ensures op.key != key ==> SameRecord(Step(g, op, c, false).0, h, key)
  {
  }

  lemma OwnUnrolls(ops: seq<Op>, answers: seq<Answer>, answer: Answer, key: string)
    requires ops != [] && |answers| == |ops| - 1
    ensures OwnAnswers(ops, [answer] + answers, key)
            == (if ops[0].key == key then [answer] else []) + OwnAnswers(ops[1..], answers, key)
  {
    assert ([answer] + answers)[1..] == answers;
  }

  lemma AnswersUnroll(guard: Guard, op: Op, ops: seq<Op>, c: Config)
    ensures Answers(guard, [op] + ops, c, false)
            == [Step(guard, op, c, false).1] + Answers(Step(guard, op, c, false).0, ops, c, false)
  {
    hide Step;
    assert ([op] + ops)[1..] == ops;
  }

  lemma {:induction false} OwnRun(g: Guard, h: Guard, ops: seq<Op>, key: string, c: Config)
    requires SameRecord(g, h, key)
    ensures OwnAnswers(ops, Answers(g, ops, c, false), key) == Answers(h, Own(ops, key), c, false)
    decreases |ops|
  {
    if ops != [] {
      hide Step, SameRecord, Answers, OwnAnswers;
      var op, g', rest := ops[0], Step(g, ops[0], c, false).0, ops[1..];
      assert [op] + rest == ops;
      OwnStep(g, h, op, key, c);
      AnswersUnroll(g, op, rest, c);
      OwnUnrolls(ops, Answers(g', rest, c, false), Step(g, op, c, false).1, key);
      if op.key == key {
        AnswersUnroll(h, op, Own(rest, key), c);
        OwnRun(g', Step(h, op, c, false).0, rest, key, c);
      } else {
        OwnRun(g', h, rest, key, c);
        assert Own(ops, key) == Own(rest, key);
      }
    } else {
      assert Own(ops, key) == [];
    }
  }

  lemma {:induction false} OwnOrdered(ops: seq<Op>, key: string)
    requires Ordered(ops)
    ensures Ordered(Own(ops, key))
  {
    if ops != [] {
      OwnOrdered(ops[1..], key);
      forall op | op in ops
        ensures ops[0].at <= op.at
      {
        var i :| 0 <= i < |ops| && ops[i] == op;
      }
    }
  }

  /** Whatever the other addresses do, an address is answered as if it were alone. */
  lemma {:induction false} AnswersByAddress(ops: seq<Op>, key: string, c: Config)
    requires Ordered(ops)
    ensures OwnAnswers(ops, Answers(map[], ops, c, true), key) == Answers(map[], Own(ops, key), c, true)
  {
    OwnRun(map[], map[], ops, key, c);
    OwnOrdered(ops, key);
    CleanupIsInvisible(ops, c);
    CleanupIsInvisible(Own(ops, key), c);
  }

  lemma {:induction false} OwnJoins(s: seq<Op>, t: seq<Op>, key: string)
    ensures Own(s + t, key) == Own(s, key) + Own(t, key)
  {
    if s == [] {
      assert s + t == t;
    } else {
      assert (s + t)[1..] == s[1..] + t;
      OwnJoins(s[1..], t, key);
    }
  }

  lemma OwnSplits(before: seq<Op>, op: Op, after: seq<Op>, key: string)
    requires op.key == key
    ensures Own(before + [op] + after, key) == Own(before, key) + [op] + Own(after, key)
  {
    OwnJoins(before + [op], after, key);
    OwnJoins(before, [op], key);
  }

  lemma {:induction false} AnswersJoin(guard: Guard, s: seq<Op>, t: seq<Op>, c: Config)
    ensures Answers(guard, s + t, c, false)
            == Answers(guard, s, c, false) + Answers(After(guard, s, c, false), t, c, false)
    decreases |s|
  {
    hide Step;
    if s == [] {
      assert s + t == t;
    } else {
      assert (s + t)[1..] == s[1..] + t;
      AnswersJoin(Step(guard, s[0], c, false).0, s[1..], t, c);
    }
  }

  lemma {:induction false} AloneKeeps(guard: Guard, ops: seq<Op>, key: string, c: Config)
    requires guard.Keys <= {key} && forall op | op in ops :: op.key == key
    ensures After(guard, ops, c, false).Keys <= {key}
    decreases |ops|
  {
    if ops != [] {
      AloneKeeps(Step(guard, ops[0], c, false).0, ops[1..], key, c);
    }
  }

  lemma OrderedParts(before: seq<Op>, op: Op, after: seq<Op>)
    requires Ordered(before + [op] + after)
    ensures Ordered(before) && Ordered(after)
  {
    var ops := before + [op] + after;
    forall i, j | 0 <= i < j < |before|
      ensures before[i].at <= before[j].at
    {
      assert ops[i] == before[i] && ops[j] == before[j];
    }
    forall i, j | 0 <= i < j < |after|
      ensures after[i].at <= after[j].at
    {
      assert ops[|before| + 1 + i] == after[i] && ops[|before| + 1 + j] == after[j];
    }
  }

  /** The same for an address on its own. */
  lemma AloneAfresh(own: seq<Op>, key: string, at: int, rest: seq<Op>, c: Config)
    requires Ordered(own + [Succeed(key, at)] + rest) && forall op | op in own :: op.key == key
    ensures Answers(map[], own + [Succeed(key, at)] + rest, c, true)
            == Answers(map[], own, c, true) + [Cleared] + Answers(map[], rest, c, true)
  {
    var success := Succeed(key, at);
    var whole := own + [success] + rest;
    OrderedParts(own, success, rest);
    CleanupIsInvisible(whole, c);
    CleanupIsInvisible(own, c);
    CleanupIsInvisible(rest, c);
    assert whole == own + ([success] + rest);
    AnswersJoin(map[], own, [success] + rest, c);
    AloneKeeps(map[], own, key, c);
    var guard := After(map[], own, c, false);
    AnswersUnroll(guard, success, rest, c);
    assert Step(guard, success, c, false) == (map[], Cleared) by {
      assert guard - {key} == map[];
    }
  }

  /** A success makes an address a stranger again: from then on it is answered as if nothing had come before. */
  lemma SuccessStartsAfresh(before: seq<Op>, key: string, at: int, after: seq<Op>, c: Config)
    requires Ordered(before + [Succeed(key, at)] + after)
    ensures var ops := before + [Succeed(key, at)] + after;
            OwnAnswers(ops, Answers(map[], ops, c, true), key)
            == OwnAnswers(before, Answers(map[], before, c, true), key) + [Cleared]
               + OwnAnswers(after, Answers(map[], after, c, true), key)
  {
    var success := Succeed(key, at);
    var ops := before + [success] + after;
    OrderedParts(before, success, after);
    AnswersByAddress(ops, key, c);
    AnswersByAddress(before, key, c);
    AnswersByAddress(after, key, c);
    hide Answers, OwnAnswers, Ordered, Own;
    OwnSplits(before, success, after, key);
    OwnOrdered(ops, key);
    AloneAfresh(Own(before, key), key, at, Own(after, key), c);
  }
}
