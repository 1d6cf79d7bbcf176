/** What the scheduler's log can and cannot hold, whatever ticks, operators and restarts do to it. */
module ScheduleRuns {
  import opened Options
  import opened Triggers
  import opened Schedule

  // ---------------------------------------------------------------------------
  // The invariant
  // ---------------------------------------------------------------------------

  function Active(s: Server): seq<Run> {
    s.manual + if s.current.Some? then [s.current.value] else []
  }

  function Ids(runs: seq<Run>): set<string> {
    set i | 0 <= i < |runs| :: runs[i].id
  }

  ghost predicate Different(runs: seq<Run>) {
    forall i, j | 0 <= i < j < |runs| :: runs[i].id != runs[j].id
  }

  /** Every claim is held by exactly one run in progress. */
  ghost predicate Claimed(s: Server) {
    Different(Active(s)) && s.claims == Ids(Active(s))
  }

  ghost predicate Past(time: Option<int>, clock: int) {
    time.Some? ==> time.value <= clock
  }

  function DueAt(reason: Reason): Option<int> {
    match reason
    case Timer(due) => Some(due)
    case After(_, due) => Some(due)
    case _ => None
  }

  /** The run is the open entry of the log it says it is. */
  ghost predicate Opened(s: Server, run: Run) {
    && run.entry < |s.log|
    && s.log[run.entry].id == run.id && s.log[run.entry].started == run.started && s.log[run.entry].boot == s.boot
    && s.log[run.entry].finished.None?
  }

  /** Open entries of this boot are the runs in progress, and nobody but operators starts runs between ticks. */
  ghost predicate Logged(s: Server) {
    && (forall i | 0 <= i < |Active(s)| :: Opened(s, Active(s)[i]))
    && (forall i | 0 <= i < |s.manual| :: Opened(s, s.manual[i]) && s.log[s.manual[i].entry].reason.Manual?)
    && (s.current.Some? ==>
          Opened(s, s.current.value)
          && !s.log[s.current.value.entry].reason.Manual? && s.log[s.current.value.entry].tick == s.ticks)
  }

  /** One entry: nothing lies ahead of the clock, a scheduled run ends before the next tick, and one left open in
      this boot is claimed. */
  ghost predicate EntrySound(s: Server, e: Entry) {
    && e.id in s.tasks && e.boot <= s.boot && e.tick <= s.ticks && e.asked <= e.started <= s.clock
    && (!e.reason.Manual? ==> Past(DueAt(e.reason), e.asked))
    && (e.boot == s.boot ==> s.startedAt <= e.started)
    && (e.boot == s.boot && e.finished.None? ==> e.id in s.claims)
    && (e.finished.Some? ==>
          && e.finished.value.at <= s.clock && e.finished.value.tick <= s.ticks
          && (!e.reason.Manual? ==> e.finished.value.tick == e.tick)
          && (e.finished.value.tick == s.ticks ==>
              s.tickedAt <= e.finished.value.at && (s.pending != [] ==> e.boot == s.boot)))
  }

  ghost predicate Timely(s: Server) {
    && s.startedAt <= s.clock && s.tickedAt <= s.clock
    && (forall id | id in s.tasks :: Past(s.tasks[id].lastRunAt, s.clock))
    && (forall i | 0 <= i < |s.log| :: EntrySound(s, s.log[i]))
  }

  /** A row remembers at least its latest logged run, and its timer lies past every one that has ended. */
  ghost predicate Remembered(tasks: map<string, Task>, runs: seq<Run>, e: Entry) {
    e.finished.Some? && e.id in tasks ==>
      && tasks[e.id].lastRunAt.Some? && e.started <= tasks[e.id].lastRunAt.value
      && (tasks[e.id].nextRunAt.Some? ==> e.finished.value.at < tasks[e.id].nextRunAt.value)
      && (forall r | r in runs && r.id == e.id :: e.started <= r.started)
  }

  ghost predicate AllRemembered(s: Server) {
    forall i | 0 <= i < |s.log| :: Remembered(s.tasks, Active(s), s.log[i])
  }

  /** The earlier run does not answer the reason: the timer came due after it ended, the boot came after it, the
      parent ran after it began. */
  predicate News(reason: Reason, boot: nat, e: Entry)
    requires e.finished.Some?
  {
    match reason
    case Timer(due) => e.finished.value.at < due
    case AtStartup => e.boot < boot
    case After(_, due) => e.started < due
    case _ => true
  }

  /** The earlier run was an operator's, and ended when the scheduler had already listed the task for the later. */
  predicate EndedWhileListed(earlier: Entry, later: Entry) {
    earlier.reason.Manual? && earlier.finished.Some? && earlier.finished.value.tick == later.tick
  }

  /** Two runs of the log, in the order they began. */
  ghost predicate Follows(earlier: Entry, later: Entry) {
    && earlier.boot <= later.boot
    && (earlier.id == later.id ==>
          && (earlier.boot == later.boot ==> earlier.finished.Some?)
          && (earlier.finished.Some? ==>
                var end := earlier.finished.value;
                && end.tick <= later.tick
                && (end.tick < later.tick ==> News(later.reason, later.boot, earlier))
                && (end.tick == later.tick && !later.reason.Manual? ==>
                      earlier.reason.Manual? && earlier.boot == later.boot && later.asked <= end.at)))
  }

  ghost predicate Ordered(log: seq<Entry>) {
    forall i, j | 0 <= i < j < |log| :: Follows(log[i], log[j])
  }

  /** The rest of the scheduler's list: not yet run for this tick, and news to every run that ended before it. */
  ghost predicate Listed(s: Server, due: Due, e: Entry) {
    e.id == due.id ==>
      && (!e.reason.Manual? ==> e.tick < s.ticks)
      && (e.finished.Some? && e.finished.value.tick < s.ticks ==> News(due.reason, s.boot, e))
  }

  ghost predicate PendingSound(s: Server) {
    && (forall i, j | 0 <= i < j < |s.pending| :: s.pending[i].id != s.pending[j].id)
    && (forall i | 0 <= i < |s.pending| :: !s.pending[i].reason.Manual? && Past(DueAt(s.pending[i].reason), s.tickedAt))
    && (forall i, j | 0 <= i < |s.pending| && 0 <= j < |s.log| :: Listed(s, s.pending[i], s.log[j]))
  }

  ghost predicate Inv(s: Server) {
    Claimed(s) && Logged(s) && Timely(s) && AllRemembered(s) && Ordered(s.log) && PendingSound(s)
  }

  // ---------------------------------------------------------------------------
  // Asking
  // ---------------------------------------------------------------------------

  lemma {:induction false} NextTimerRunIsLater(triggers: seq<Trigger>, from: int)
    ensures NextTimerRun(triggers, from).Some? ==> NextTimerRun(triggers, from).value > from
  {
    hide NextRun;
    if triggers != [] {
      if triggers[0].Every? {
        NextRunIsLater(triggers[0], from);
      } else {
        OnlyTimersKnow(triggers[0], from);
      }
      NextTimerRunIsLater(triggers[1..], from);
    }
  }

  lemma OnlyTimersKnow(trigger: Trigger, from: int)
    requires !trigger.Every?
    ensures NextRun(trigger, from).None?
  {
  }

  /** What a reason says about the rows it was read from. */
  ghost predicate Grounded(reason: Reason, task: Task, tasks: map<string, Task>, startedAt: int, now: int) {
    && !reason.Manual?
    && (reason.Timer? ==> task.nextRunAt == Some(reason.due) && reason.due <= now)
    && (reason.AtStartup? ==> task.lastRunAt.Some? ==> task.lastRunAt.value < startedAt)
    && (reason.After? ==>
          && reason.parent in tasks && tasks[reason.parent].lastRunAt == Some(reason.due)
          && tasks[reason.parent].succeeded == Some(true)
          && (task.lastRunAt.Some? ==> task.lastRunAt.value < reason.due))
  }

  lemma {:induction false} FirstToFireIsGrounded(triggers: seq<Trigger>, task: Task, tasks: map<string, Task>,
                                                 startedAt: int, now: int, seen: Trigger -> bool)
    ensures var reason := FirstToFire(triggers, task, tasks, startedAt, now, seen);
            reason.Some? ==> Grounded(reason.value, task, tasks, startedAt, now)
  {
    if triggers != [] {
      FirstToFireIsGrounded(triggers[1..], task, tasks, startedAt, now, seen);
    }
  }

  ghost predicate DueSound(pending: seq<Due>, order: seq<string>, tasks: map<string, Task>, startedAt: int, now: int) {
    && (forall i | 0 <= i < |pending| ::
          && pending[i].id in order && pending[i].id in tasks
          && Grounded(pending[i].reason, tasks[pending[i].id], tasks, startedAt, now))
    && (forall i, j | 0 <= i < j < |pending| :: pending[i].id != pending[j].id)
  }

  lemma OneMoreDue(first: Due, rest: seq<Due>, order: seq<string>, tasks: map<string, Task>, startedAt: int, now: int)
    requires order != [] && Distinct(order) && DueSound(rest, order[1..], tasks, startedAt, now)
    ensures DueSound(rest, order, tasks, startedAt, now)
    ensures first.id == order[0] && first.id in tasks
            && Grounded(first.reason, tasks[first.id], tasks, startedAt, now) ==>
              DueSound([first] + rest, order, tasks, startedAt, now)
  {
  }

  lemma {:induction false} DueIsGrounded(order: seq<string>, tasks: map<string, Task>, startedAt: int, now: int,
                                         seen: Trigger -> bool)
    requires Distinct(order)
    ensures DueSound(DueList(order, tasks, startedAt, now, seen), order, tasks, startedAt, now)
  {
    hide Grounded, FirstToFire, DueSound;
    if order != [] {
      var rest := DueList(order[1..], tasks, startedAt, now, seen);
      DueIsGrounded(order[1..], tasks, startedAt, now, seen);
      OneMoreDue(Due(order[0], Manual), rest, order, tasks, startedAt, now);
      if order[0] in tasks {
        var task := tasks[order[0]];
        var reason := Asking(task, tasks, startedAt, now, seen);
        FirstToFireIsGrounded(task.triggers, task, tasks, startedAt, now, seen);
        if reason.Some? {
          OneMoreDue(Due(order[0], reason.value), rest, order, tasks, startedAt, now);
        }
      }
    } else {
      NothingDue(tasks, startedAt, now);
    }
  }

  lemma NothingDue(tasks: map<string, Task>, startedAt: int, now: int)
    ensures DueSound([], [], tasks, startedAt, now)
  {
  }

  // ---------------------------------------------------------------------------
  // Claims
  // ---------------------------------------------------------------------------

  /** One run more, and its claim with it. */
  lemma ClaimsWith(before: seq<Run>, k: nat, run: Run)
    requires k <= |before| && Different(before) && run.id !in Ids(before)
    ensures var after := before[..k] + [run] + before[k..];
            Different(after) && Ids(after) == Ids(before) + {run.id}
  {
    var after := before[..k] + [run] + before[k..];
    forall i, j | 0 <= i < j < |after|
      ensures after[i].id != after[j].id
    {
      assert i != k ==> after[i] == before[if i < k then i else i - 1] && after[i].id in Ids(before);
      assert j != k ==> after[j] == before[if j < k then j else j - 1] && after[j].id in Ids(before);
    }
    IdsWith(before, k, run);
  }

  lemma IdsWith(before: seq<Run>, k: nat, run: Run)
    requires k <= |before|
    ensures Ids(before[..k] + [run] + before[k..]) == Ids(before) + {run.id}
  {
    var after := before[..k] + [run] + before[k..];
    forall id
      ensures id in Ids(after) <==> id in Ids(before) || id == run.id
    {
      if id in Ids(before) {
        var i :| 0 <= i < |before| && before[i].id == id;
        assert after[if i < k then i else i + 1].id == id;
      }
      if id in Ids(after) && id != run.id {
        var i :| 0 <= i < |after| && after[i].id == id;
        assert before[if i < k then i else i - 1].id == id;
      }
      assert after[k].id == run.id;
    }
  }

  /** One run less, and its claim with it. */
  lemma ClaimsWithout(before: seq<Run>, k: nat)
    requires k < |before| && Different(before)
    ensures var after := before[..k] + before[k + 1..];
            Different(after) && Ids(after) == Ids(before) - {before[k].id}
  {
    var after := before[..k] + before[k + 1..];
    assert forall i | 0 <= i < |after| :: after[i] == before[if i < k then i else i + 1];
    forall id
      ensures id in Ids(after) <==> id in Ids(before) && id != before[k].id
    {
      if id in Ids(before) && id != before[k].id {
        var i :| 0 <= i < |before| && before[i].id == id;
        assert after[if i < k then i else i - 1].id == id;
      }
    }
  }

  // ---------------------------------------------------------------------------
  // Runs beginning and ending
  // ---------------------------------------------------------------------------

  /** What beginning a run does, whoever begins it. */
  ghost predicate Begun(s: Server, t: Server, run: Run, e: Entry, k: nat) {
    && run.id !in s.claims && run.id in s.tasks && s.clock <= run.started == e.started == t.clock
    && run.entry == |s.log| && e.id == run.id && e.boot == s.boot && e.finished.None? && e.asked <= e.started
       && e.tick == s.ticks
    && k <= |Active(s)| && Active(t) == Active(s)[..k] + [run] + Active(s)[k..]
    && t.tasks == s.tasks && t.claims == s.claims + {run.id} && t.log == s.log + [e]
    && t.ticks == s.ticks && t.tickedAt == s.tickedAt && t.boot == s.boot && t.startedAt == s.startedAt
    && (t.pending != [] ==> s.pending != [])
  }

  lemma BegunKeepsClaims(s: Server, t: Server, run: Run, e: Entry, k: nat)
    requires Claimed(s) && Begun(s, t, run, e, k)
    ensures Claimed(t)
  {
    ClaimsWith(Active(s), k, run);
  }

  lemma BegunKeepsEntries(s: Server, t: Server, run: Run, e: Entry, k: nat)
    requires Timely(s) && Begun(s, t, run, e, k) && (!e.reason.Manual? ==> Past(DueAt(e.reason), e.asked))
    ensures Timely(t)
  {
  }

  lemma BegunIsRemembered(s: Server, t: Server, run: Run, e: Entry, k: nat)
    requires Timely(s) && AllRemembered(s) && Begun(s, t, run, e, k)
    ensures AllRemembered(t)
  {
  }

  lemma BegunKeepsOrder(s: Server, t: Server, run: Run, e: Entry, k: nat)
    requires Ordered(s.log) && Begun(s, t, run, e, k)
    requires forall i | 0 <= i < |s.log| :: Follows(s.log[i], e)
    ensures Ordered(t.log)
  {
  }

  lemma ManualFollows(s: Server, e: Entry, i: nat)
    requires Timely(s) && i < |s.log| && e.reason.Manual? && e.boot == s.boot && e.tick == s.ticks && e.id !in s.claims
    ensures Follows(s.log[i], e)
  {
  }

  lemma ListedFollows(s: Server, e: Entry, i: nat)
    requires Timely(s) && PendingSound(s) && i < |s.log| && s.pending != [] && s.pending[0].id !in s.claims
    requires e.id == s.pending[0].id && e.reason == s.pending[0].reason
    requires e.boot == s.boot && e.tick == s.ticks && e.asked == s.tickedAt
    ensures Follows(s.log[i], e)
  {
  }

  lemma BeginKeepsInv(s: Server, event: Event)
    requires event.Begin? && Inv(s)
    ensures Inv(Step(s, event))
  {
    var t := Step(s, event);
    if event.now >= s.clock && s.pending != [] && s.current.None? {
      if t.current.Some? {
        var run, e := t.current.value, t.log[|s.log|];
        assert Active(t) == Active(s)[..|Active(s)|] + [run] + Active(s)[|Active(s)|..];
        assert Begun(s, t, run, e, |Active(s)|);
        BegunKeepsClaims(s, t, run, e, |Active(s)|);
        BegunKeepsEntries(s, t, run, e, |Active(s)|);
        BegunIsRemembered(s, t, run, e, |Active(s)|);
        forall i | 0 <= i < |s.log|
          ensures Follows(s.log[i], e)
        {
          ListedFollows(s, e, i);
        }
        BegunKeepsOrder(s, t, run, e, |Active(s)|);
        BeginLogs(s, event);
        BeginKeepsPending(s, event);
        hide Claimed, Logged, Timely, AllRemembered, Ordered, PendingSound;
      } else {
        SkipKeepsInv(s, event);
      }
    }
  }

  lemma SkipKeepsInv(s: Server, event: Event)
    requires event.Begin? && Inv(s) && event.now >= s.clock && s.pending != [] && s.current.None?
             && Step(s, event).current.None?
    ensures Inv(Step(s, event))
  {
    var t := Step(s, event);
    assert Active(t) == Active(s);
    forall i, j | 0 <= i < |t.pending| && 0 <= j < |t.log|
      ensures Listed(t, t.pending[i], t.log[j])
    {
      assert Listed(s, s.pending[i + 1], s.log[j]);
    }
    forall i | 0 <= i < |t.log|
      ensures EntrySound(t, t.log[i])
    {
      assert EntrySound(s, s.log[i]);
    }
    hide Follows, Remembered, News;
  }

  lemma BeginLogs(s: Server, event: Event)
    requires event.Begin? && Logged(s) && PendingSound(s) && s.current.None? && Step(s, event).current.Some?
    ensures Logged(Step(s, event))
  {
  }

  lemma BeginKeepsPending(s: Server, event: Event)
    requires event.Begin? && PendingSound(s) && s.current.None? && Step(s, event).current.Some?
    ensures PendingSound(Step(s, event))
  {
  }

  lemma BeginManualKeepsInv(s: Server, event: Event)
    requires event.BeginManual? && Inv(s)
    ensures Inv(Step(s, event))
  {
    if event.now >= s.clock && event.id !in s.claims && event.id in s.tasks {
      var t, m := Step(s, event), |s.manual|;
      var run, e := t.manual[m], t.log[|s.log|];
      assert Active(t) == Active(s)[..m] + [run] + Active(s)[m..];
      assert Begun(s, t, run, e, m);
      BegunKeepsClaims(s, t, run, e, m);
      BegunKeepsEntries(s, t, run, e, m);
      BegunIsRemembered(s, t, run, e, m);
      forall i | 0 <= i < |s.log|
        ensures Follows(s.log[i], e)
      {
        ManualFollows(s, e, i);
      }
      BegunKeepsOrder(s, t, run, e, m);
      BeginManualLogs(s, event);
      BeginManualKeepsPending(s, event);
      hide Claimed, Logged, Timely, AllRemembered, Ordered, PendingSound;
    }
  }

  lemma BeginManualLogs(s: Server, event: Event)
    requires event.BeginManual? && Logged(s) && event.now >= s.clock && event.id !in s.claims && event.id in s.tasks
    ensures Logged(Step(s, event))
  {
  }

  lemma BeginManualKeepsPending(s: Server, event: Event)
    requires event.BeginManual? && PendingSound(s)
    ensures PendingSound(Step(s, event))
  {
  }

  /** What the end of a run does, whoever began it. */
  ghost predicate Over(s: Server, t: Server, run: Run, k: nat, now: int, ok: bool) {
    && k < |Active(s)| && Active(s)[k] == run && Active(t) == Active(s)[..k] + Active(s)[k + 1..]
    && s.clock <= now == t.clock
    && t.tasks == Ended(s.tasks, run, now, ok) && t.claims == s.claims - {run.id}
    && t.log == Closed(s.log, run.entry, End(now, s.ticks))
    && t.ticks == s.ticks && t.tickedAt == s.tickedAt && t.boot == s.boot && t.startedAt == s.startedAt
    && t.pending == s.pending
  }

  lemma OverKeepsClaims(s: Server, t: Server, run: Run, k: nat, now: int, ok: bool)
    requires Claimed(s) && Over(s, t, run, k, now, ok)
    ensures Claimed(t)
  {
    ClaimsWithout(Active(s), k);
  }

  lemma OverKeepsEntries(s: Server, t: Server, run: Run, k: nat, now: int, ok: bool)
    requires Claimed(s) && Logged(s) && Timely(s) && Ordered(s.log) && Over(s, t, run, k, now, ok)
    requires !s.log[run.entry].reason.Manual? ==> s.log[run.entry].tick == s.ticks
    ensures Timely(t)
  {
  }

  lemma OverIsRemembered(s: Server, t: Server, run: Run, k: nat, now: int, ok: bool)
    requires Claimed(s) && Logged(s) && Timely(s) && AllRemembered(s) && Over(s, t, run, k, now, ok)
    ensures AllRemembered(t)
  {
    assert Opened(s, run);
    assert EntrySound(s, s.log[run.entry]);
    assert forall r | r in Active(t) :: r in Active(s) && r.id != run.id by { OthersDiffer(Active(s), k); }
    hide Opened, Over;
    forall i | 0 <= i < |t.log|
      ensures Remembered(t.tasks, Active(t), t.log[i])
    {
      assert EntrySound(s, s.log[i]) && Remembered(s.tasks, Active(s), s.log[i]);
      NextTimerRunIsLater(run.triggers, now);
      OneEndIsRemembered(s, t, run, now, ok, i);
    }
  }

  lemma OthersDiffer(runs: seq<Run>, k: nat)
    requires k < |runs| && Different(runs)
    ensures forall r | r in runs[..k] + runs[k + 1..] :: r in runs && r.id != runs[k].id
  {
  }

  lemma OneEndIsRemembered(s: Server, t: Server, run: Run, now: int, ok: bool, i: nat)
    requires i < |s.log| && |t.log| == |s.log| && run.entry < |s.log| && run.id in s.tasks
    requires EntrySound(s, s.log[i]) && Remembered(s.tasks, Active(s), s.log[i]) && s.clock <= now
    requires t.tasks == Ended(s.tasks, run, now, ok) && run in Active(s)
    requires t.log[i] == if i == run.entry then s.log[i].(finished := Some(End(now, s.ticks))) else s.log[i]
    requires s.log[run.entry].id == run.id && s.log[run.entry].started == run.started
    requires forall r | r in Active(t) :: r in Active(s) && r.id != run.id
    requires NextTimerRun(run.triggers, now).Some? ==> NextTimerRun(run.triggers, now).value > now
    ensures Remembered(t.tasks, Active(t), t.log[i])
  {
  }

  lemma OverKeepsOrder(s: Server, t: Server, run: Run, k: nat, now: int, ok: bool)
    requires Logged(s) && Timely(s) && Ordered(s.log) && Over(s, t, run, k, now, ok)
    ensures Ordered(t.log)
  {
  }

  lemma OverKeepsPending(s: Server, t: Server, run: Run, k: nat, now: int, ok: bool)
    requires PendingSound(s) && Over(s, t, run, k, now, ok)
    ensures PendingSound(t)
  {
  }

  /** The other runs stay open. */
  lemma StaysOpen(s: Server, t: Server, run: Run, k: nat, now: int, ok: bool, other: Run)
    requires Logged(s) && Over(s, t, run, k, now, ok) && Opened(s, other) && other.id != run.id
    ensures Opened(t, other) && t.log[other.entry] == s.log[other.entry]
  {
  }

  lemma FinishKeepsInv(s: Server, event: Event)
    requires event.Finish? && Inv(s)
    ensures Inv(Step(s, event))
  {
    if event.now >= s.clock && s.current.Some? {
      var t, run, k := Step(s, event), s.current.value, |s.manual|;
      assert Active(t) == Active(s)[..k] + Active(s)[k + 1..];
      OverKeepsInv(s, t, run, k, event.now, event.ok);
      forall i | 0 <= i < |t.manual|
        ensures Opened(t, t.manual[i]) && t.log[t.manual[i].entry].reason.Manual?
      {
        assert Active(s)[i] == s.manual[i] && Active(s)[k] == run;
        StaysOpen(s, t, run, k, event.now, event.ok, s.manual[i]);
      }
      assert Active(t) == t.manual;
      assert Logged(t);
      hide Claimed, Logged, Timely, AllRemembered, Ordered, PendingSound;
    }
  }

  lemma OverKeepsInv(s: Server, t: Server, run: Run, k: nat, now: int, ok: bool)
    requires Inv(s) && Over(s, t, run, k, now, ok)
    requires !s.log[run.entry].reason.Manual? ==> s.log[run.entry].tick == s.ticks
    ensures Claimed(t) && Timely(t) && AllRemembered(t) && Ordered(t.log) && PendingSound(t)
  {
    hide Claimed, Logged, Timely, AllRemembered, Ordered, PendingSound, Over;
    OverKeepsClaims(s, t, run, k, now, ok);
    OverKeepsEntries(s, t, run, k, now, ok);
    OverIsRemembered(s, t, run, k, now, ok);
    OverKeepsOrder(s, t, run, k, now, ok);
    OverKeepsPending(s, t, run, k, now, ok);
  }

  lemma FinishManualKeepsInv(s: Server, event: Event)
    requires event.FinishManual? && Inv(s)
    ensures Inv(Step(s, event))
  {
    if event.now >= s.clock && event.index < |s.manual| {
      var t, k := Step(s, event), event.index;
      var run := s.manual[k];
      assert Active(s)[k] == run && Active(t) == Active(s)[..k] + Active(s)[k + 1..];
      assert Opened(s, run) && s.log[run.entry].reason.Manual?;
      OverKeepsInv(s, t, run, k, event.now, event.ok);
      FinishManualLogs(s, t, run, k, event.now, event.ok);
      hide Claimed, Logged, Timely, AllRemembered, Ordered, PendingSound;
    }
  }

  lemma FinishManualLogs(s: Server, t: Server, run: Run, k: nat, now: int, ok: bool)
    requires Claimed(s) && Logged(s) && Over(s, t, run, k, now, ok)
    requires k < |s.manual| && t.manual == s.manual[..k] + s.manual[k + 1..] && t.current == s.current
    ensures Logged(t)
  {
    OthersDiffer(Active(s), k);
    hide Over, Opened;
    forall other | other in s.manual && other.id != run.id
      ensures Opened(t, other) && t.log[other.entry] == s.log[other.entry]
    {
      StaysOpen(s, t, run, k, now, ok, other);
    }
    if s.current.Some? {
      assert Active(s)[|s.manual|] == s.current.value;
      StaysOpen(s, t, run, k, now, ok, s.current.value);
    }
    forall i | 0 <= i < |t.manual|
      ensures t.manual[i] in s.manual && t.manual[i].id != run.id
    {
      var j := if i < k then i else i + 1;
      assert t.manual[i] == s.manual[j] && Active(s)[j] == s.manual[j] && Active(s)[k] == s.manual[k];
    }
    OverShape(s, t, run, k, now, ok);
    forall i | 0 <= i < |Active(t)|
      ensures Opened(t, Active(t)[i])
    {
    }
  }

  lemma OverShape(s: Server, t: Server, run: Run, k: nat, now: int, ok: bool)
    requires Over(s, t, run, k, now, ok)
    ensures Active(s)[k] == run && t.ticks == s.ticks
  {
  }

  // ---------------------------------------------------------------------------
  // Other steps
  // ---------------------------------------------------------------------------

  /** Whatever makes the scheduler run a task now is news to every run of it that has ended. */
  lemma GroundedIsNews(s: Server, id: string, reason: Reason, now: int, e: Entry)
    requires EntrySound(s, e) && Remembered(s.tasks, Active(s), e) && e.id == id && e.finished.Some?
    requires Grounded(reason, s.tasks[id], s.tasks, s.startedAt, now)
    ensures News(reason, s.boot, e)
  {
  }

  lemma TickKeepsInv(s: Server, event: Event)
    requires event.Tick? && Inv(s)
    ensures Inv(Step(s, event))
  {
    if event.now >= s.clock && s.pending == [] && s.current.None? && Distinct(event.order) {
      var t := Step(s, event);
      assert Active(t) == Active(s);
      TickListsNews(s, event);
      forall i | 0 <= i < |t.log|
        ensures EntrySound(t, t.log[i])
      {
        assert EntrySound(s, s.log[i]);
      }
      forall i | 0 <= i < |t.manual|
        ensures Opened(t, t.manual[i]) && t.log[t.manual[i].entry].reason.Manual?
      {
        assert Opened(s, s.manual[i]);
      }
      hide PendingSound, Remembered, Follows;
    }
  }

  lemma TickListsNews(s: Server, event: Event)
    requires event.Tick? && Timely(s) && AllRemembered(s)
    requires event.now >= s.clock && s.pending == [] && s.current.None? && Distinct(event.order)
    ensures PendingSound(Step(s, event))
  {
    var t := Step(s, event);
    DueIsGrounded(event.order, s.tasks, s.startedAt, event.now, event.seen);
    forall i, j | 0 <= i < |t.pending| && 0 <= j < |t.log|
      ensures Listed(t, t.pending[i], t.log[j])
    {
      assert EntrySound(s, s.log[j]) && Remembered(s.tasks, Active(s), s.log[j]);
      var due := t.pending[i];
      assert Grounded(due.reason, s.tasks[due.id], s.tasks, s.startedAt, event.now);
      if s.log[j].id == due.id && s.log[j].finished.Some? {
        GroundedIsNews(s, due.id, due.reason, event.now, s.log[j]);
      }
    }
    forall i | 0 <= i < |t.pending|
      ensures !t.pending[i].reason.Manual? && Past(DueAt(t.pending[i].reason), t.tickedAt)
    {
      assert Grounded(t.pending[i].reason, s.tasks[t.pending[i].id], s.tasks, s.startedAt, event.now);
    }
  }

  lemma EditKeepsInv(s: Server, event: Event)
    requires event.Edit? && Inv(s)
    ensures Inv(Step(s, event))
  {
    if event.now >= s.clock && event.id in s.tasks && Acceptable(event.triggers, event.id, event.schedulable) {
      var t := Step(s, event);
      NextTimerRunIsLater(event.triggers, event.now);
      assert Active(t) == Active(s);
      hide Acceptable, Follows, NextTimerRun;
      forall i | 0 <= i < |t.log|
        ensures EntrySound(t, t.log[i]) && Remembered(t.tasks, Active(t), t.log[i])
      {
        assert EntrySound(s, s.log[i]) && Remembered(s.tasks, Active(s), s.log[i]);
      }
      forall i, j | 0 <= i < |t.pending| && 0 <= j < |t.log|
        ensures Listed(t, t.pending[i], t.log[j])
      {
        assert Listed(s, s.pending[i], s.log[j]);
      }
      forall i | 0 <= i < |t.manual|
        ensures Opened(t, t.manual[i]) && t.log[t.manual[i].entry].reason.Manual?
      {
        assert Opened(s, s.manual[i]);
      }
    }
  }

  lemma RestartKeepsInv(s: Server, event: Event)
    requires event.Restart? && Inv(s)
    ensures Inv(Step(s, event))
  {
  }

  lemma StepKeepsInv(s: Server, event: Event)
    requires Inv(s)
    ensures Inv(Step(s, event))
  {
    hide Inv, Step;
    match event
    case Tick(_, _, _) => TickKeepsInv(s, event);
    case Begin(_) => BeginKeepsInv(s, event);
    case Finish(_, _) => FinishKeepsInv(s, event);
    case BeginManual(_, _) => BeginManualKeepsInv(s, event);
    case FinishManual(_, _, _) => FinishManualKeepsInv(s, event);
    case Edit(_, _, _, _, _) => EditKeepsInv(s, event);
    case Restart(_) => RestartKeepsInv(s, event);
  }

  lemma {:induction false} RunKeepsInv(s: Server, events: seq<Event>)
    requires Inv(s)
    ensures Inv(AfterAll(s, events))
    decreases |events|
  {
    hide Inv, Step;
    if events != [] {
      StepKeepsInv(s, events[0]);
      RunKeepsInv(Step(s, events[0]), events[1..]);
    }
  }

  // ---------------------------------------------------------------------------
  // Theorems
  // ---------------------------------------------------------------------------

  /** A server that has just booted over whatever rows it finds. */
  function Booted(tasks: map<string, Task>, now: int): Server {
    Server(tasks, {}, [], [], None, [], 0, now, 0, now, now)
  }

  predicate RowsArePast(tasks: map<string, Task>, now: int) {
    forall id | id in tasks :: tasks[id].lastRunAt.Some? ==> tasks[id].lastRunAt.value <= now
  }

  lemma ReachableInv(tasks: map<string, Task>, now: int, events: seq<Event>)
    requires RowsArePast(tasks, now)
    ensures Inv(AfterAll(Booted(tasks, now), events))
  {
    assert Inv(Booted(tasks, now));
    hide Inv, Step;
    RunKeepsInv(Booted(tasks, now), events);
  }

  /** No task ever runs twice at once, whoever started it. */
  lemma NoTaskRunsTwiceAtOnce(tasks: map<string, Task>, now: int, events: seq<Event>, i: nat, j: nat)
    requires RowsArePast(tasks, now)
    requires i < j < |Active(AfterAll(Booted(tasks, now), events))|
    ensures Active(AfterAll(Booted(tasks, now), events))[i].id != Active(AfterAll(Booted(tasks, now), events))[j].id
  {
    hide Step, AfterAll;
    ReachableInv(tasks, now, events);
  }

  /** However long the server was down or a task kept running, the periods missed make one run: a timer's run was
      due only after the task's earlier runs had ended, whoever began them. The one exception is an operator's run
      that ended when the scheduler had already listed the task, because the list is not asked again. */
  lemma MissedTimersRunOnce(tasks: map<string, Task>, now: int, events: seq<Event>, i: nat, j: nat)
    requires RowsArePast(tasks, now)
    requires var log := AfterAll(Booted(tasks, now), events).log;
             i < j < |log| && log[i].id == log[j].id && log[i].finished.Some? && log[j].reason.Timer?
    ensures var log := AfterAll(Booted(tasks, now), events).log;
            && (log[i].finished.value.at < log[j].reason.due <==> !EndedWhileListed(log[i], log[j]))
            && log[j].reason.due <= log[j].asked <= log[j].started
  {
    hide Step, AfterAll;
    ReachableInv(tasks, now, events);
    var s := AfterAll(Booted(tasks, now), events);
    assert Follows(s.log[i], s.log[j]) && EntrySound(s, s.log[j]);
  }

  /** A startup trigger fires for a task that has not run in its boot, by anyone; with the same one exception. */
  lemma StartupFiresOncePerBoot(tasks: map<string, Task>, now: int, events: seq<Event>, i: nat, j: nat)
    requires RowsArePast(tasks, now)
    requires var log := AfterAll(Booted(tasks, now), events).log;
             i < j < |log| && log[i].id == log[j].id && log[j].reason.AtStartup?
    ensures var log := AfterAll(Booted(tasks, now), events).log;
            log[i].boot < log[j].boot <==> !EndedWhileListed(log[i], log[j])
  {
    hide Step, AfterAll;
    ReachableInv(tasks, now, events);
    var s := AfterAll(Booted(tasks, now), events);
    assert Follows(s.log[i], s.log[j]) && EntrySound(s, s.log[j]);
  }

  /** A parent's run starts its follower only if no finished run of the follower, by anyone, began at or after it;
      with the same exception, which an operator's run begun since the tick always is. So of two runs that follow
      one parent, the later follows a later run of it. */
  lemma ParentRunIsFollowedOnce(tasks: map<string, Task>, now: int, events: seq<Event>, i: nat, j: nat)
    requires RowsArePast(tasks, now)
    requires var log := AfterAll(Booted(tasks, now), events).log;
             i < j < |log| && log[i].id == log[j].id && log[i].finished.Some? && log[j].reason.After?
    ensures var log := AfterAll(Booted(tasks, now), events).log;
            && (log[j].reason.due <= log[i].started ==> EndedWhileListed(log[i], log[j]))
            && (EndedWhileListed(log[i], log[j]) && log[j].asked <= log[i].started ==>
                log[j].reason.due <= log[i].started)
            && (log[i].reason.After? ==> log[i].reason.due < log[j].reason.due)
  {
    hide Step, AfterAll;
    ReachableInv(tasks, now, events);
    var s := AfterAll(Booted(tasks, now), events);
    assert Follows(s.log[i], s.log[j]) && EntrySound(s, s.log[i]) && EntrySound(s, s.log[j]);
  }

  /** The exception occurs whenever an operator runs the next listed task first: the scheduler runs it again, for
      the reason it was listed for. */
  lemma OperatorsRunIsNotNoticed(s: Server, began: int, ended: int, ok: bool, later: int)
    requires Inv(s) && s.pending != [] && s.current.None? && s.clock <= began <= ended <= later
    requires s.pending[0].id in s.tasks && s.pending[0].id !in s.claims
    ensures var due := s.pending[0];
            var t := Step(Step(Step(s, BeginManual(began, due.id)), FinishManual(ended, |s.manual|, ok)), Begin(later));
            && |t.log| == |s.log| + 2 && t.log[..|s.log|] == s.log
            && t.log[|s.log|].id == t.log[|s.log| + 1].id == due.id && t.log[|s.log| + 1].reason == due.reason
            && EndedWhileListed(t.log[|s.log|], t.log[|s.log| + 1])
  {
  }

  /** The moment an after-task trigger calls its parent's finish is the parent's start, so a follower that ran to
      its end from then on is not asked for by that run of the parent, not even if it began before the parent
      ended. */
  lemma RunSinceTheParentBeganIsEnough(s: Server, j: nat, parent: string, delayMinutes: int, now: int)
    requires Inv(s) && j < |s.log| && s.log[j].finished.Some? && parent in s.tasks
    requires Past(s.tasks[parent].lastRunAt, s.log[j].started)
    ensures AfterParent(s.tasks, parent, delayMinutes, s.tasks[s.log[j].id].lastRunAt, now).None?
  {
  }
}
