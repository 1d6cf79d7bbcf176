/** When a task is due, said on its row and the clock; and that a task found due is run. */
module ScheduleAsking {
  import opened Options
  import opened Triggers
  import opened Schedule

  // ---------------------------------------------------------------------------
  // Asking
  // ---------------------------------------------------------------------------

  /** The moment lies so many minutes back, or further. */
  predicate Elapsed(from: int, minutes: int, now: int) {
    from + minutes * 60_000_000_000 <= now
  }

  /** A timer's stored next run has come; the boot is that long ago and the task has not run since; the parent
      succeeded in a run that began after the task's last and is that long ago; or the task's last run is that long ago
      and there is something to see. */
  predicate IsDue(trigger: Trigger, task: Task, tasks: map<string, Task>, startedAt: int, now: int,
                  seen: Trigger -> bool) {
    match trigger
    case Every(_, _, _, _, _) => task.nextRunAt.Some? && task.nextRunAt.value <= now
    case Startup(delay) =>
      Elapsed(startedAt, delay, now) && (task.lastRunAt.None? || task.lastRunAt.value < startedAt)
    case AfterTask(parent, delay) =>
      && parent in tasks && tasks[parent].succeeded == Some(true) && tasks[parent].lastRunAt.Some?
      && Elapsed(tasks[parent].lastRunAt.value, delay, now)
      && (task.lastRunAt.None? || task.lastRunAt.value < tasks[parent].lastRunAt.value)
    case OnEvent(_, gap) => (task.lastRunAt.None? || RestedFor(task.lastRunAt.value, gap, now)) && seen(trigger)
    case Condition(_, _, _, gap) => (task.lastRunAt.None? || RestedFor(task.lastRunAt.value, gap, now)) && seen(trigger)
  }

  predicate RestedFor(last: int, gap: int, now: int) {
    last <= now && Elapsed(last, gap, now)
  }

  /** The reason names its trigger's kind, with the moment that made it due. */
  predicate Names(reason: Reason, trigger: Trigger, task: Task, tasks: map<string, Task>) {
    match trigger
    case Every(_, _, _, _, _) => reason.Timer? && task.nextRunAt == Some(reason.due)
    case Startup(_) => reason.AtStartup?
    case AfterTask(parent, _) =>
      reason.After? && reason.parent == parent && parent in tasks && tasks[parent].lastRunAt == Some(reason.due)
    case OnEvent(_, _) => reason.OnEventSeen?
    case Condition(_, _, _, _) => reason.OnCondition?
  }

  ghost predicate FirstDue(task: Task, i: nat, tasks: map<string, Task>, startedAt: int, now: int,
                           seen: Trigger -> bool) {
    && i < |task.triggers| && IsDue(task.triggers[i], task, tasks, startedAt, now, seen)
    && forall j | 0 <= j < i :: !IsDue(task.triggers[j], task, tasks, startedAt, now, seen)
  }

  lemma {:induction false} FiresExactly(trigger: Trigger, task: Task, tasks: map<string, Task>, startedAt: int,
                                        now: int, seen: Trigger -> bool)
    ensures var reason := Fires(trigger, task, tasks, startedAt, now, seen);
            && (reason.Some? <==> IsDue(trigger, task, tasks, startedAt, now, seen))
            && (reason.Some? ==> Names(reason.value, trigger, task, tasks))
  {
  }

  lemma {:induction false} FirstToFireExactly(triggers: seq<Trigger>, task: Task, tasks: map<string, Task>,
                                              startedAt: int, now: int, seen: Trigger -> bool)
    returns (i: nat)
    ensures var reason := FirstToFire(triggers, task, tasks, startedAt, now, seen);
            && (forall j | 0 <= j < i && j < |triggers| :: !IsDue(triggers[j], task, tasks, startedAt, now, seen))
            && (reason.Some? <==> i < |triggers|)
            && (reason.Some? ==> IsDue(triggers[i], task, tasks, startedAt, now, seen)
                                 && Names(reason.value, triggers[i], task, tasks))
  {
    hide Fires, IsDue, Names;
    if triggers == [] {
      i := 0;
    } else {
      FiresExactly(triggers[0], task, tasks, startedAt, now, seen);
      if Fires(triggers[0], task, tasks, startedAt, now, seen).Some? {
        i := 0;
      } else {
        var rest := FirstToFireExactly(triggers[1..], task, tasks, startedAt, now, seen);
        i := rest + 1;
        forall j | 0 <= j < i && j < |triggers|
          ensures !IsDue(triggers[j], task, tasks, startedAt, now, seen)
        {
          if j > 0 {
            assert triggers[j] == triggers[1..][j - 1];
          }
        }
      }
    }
  }

  /** A task asks to run exactly if it is enabled and one of its triggers is due, and for the first such. */
  lemma {:induction false} AsksExactly(task: Task, tasks: map<string, Task>, startedAt: int, now: int,
                                       seen: Trigger -> bool)
    ensures var reason := Asking(task, tasks, startedAt, now, seen);
            && (reason.Some? <==> task.enabled && exists trigger | trigger in task.triggers ::
                                    IsDue(trigger, task, tasks, startedAt, now, seen))
            && (reason.Some? ==> exists i: nat :: FirstDue(task, i, tasks, startedAt, now, seen)
                                             && Names(reason.value, task.triggers[i], task, tasks))
  {
    var i := FirstToFireExactly(task.triggers, task, tasks, startedAt, now, seen);
    hide IsDue, Names, FirstToFire;
    if i < |task.triggers| {
      assert FirstDue(task, i, tasks, startedAt, now, seen);
    }
  }

  /** A tick lists exactly the tasks that ask, each for its reason. */
  lemma {:induction false} ListedExactly(order: seq<string>, tasks: map<string, Task>, startedAt: int, now: int,
                                         seen: Trigger -> bool, id: string, reason: Reason)
    ensures Due(id, reason) in DueList(order, tasks, startedAt, now, seen)
            <==> id in order && id in tasks && Asking(tasks[id], tasks, startedAt, now, seen) == Some(reason)
  {
    hide Asking;
    if order != [] {
      ListedExactly(order[1..], tasks, startedAt, now, seen, id, reason);
      assert order == [order[0]] + order[1..];
    }
  }

  /** In the order it asks them. */
  lemma {:induction false} ListKeepsOrder(order: seq<string>, tasks: map<string, Task>, startedAt: int, now: int,
                                          seen: Trigger -> bool, i: nat, j: nat)
    requires i < j < |DueList(order, tasks, startedAt, now, seen)|
    ensures var list := DueList(order, tasks, startedAt, now, seen);
            exists a, b :: 0 <= a < b < |order| && order[a] == list[i].id && order[b] == list[j].id
  {
    hide Asking;
    var list, rest := DueList(order, tasks, startedAt, now, seen), DueList(order[1..], tasks, startedAt, now, seen);
    if list == rest {
      ListKeepsOrder(order[1..], tasks, startedAt, now, seen, i, j);
      var a, b :| 0 <= a < b < |order[1..]| && order[1..][a] == list[i].id && order[1..][b] == list[j].id;
      assert order[a + 1] == list[i].id && order[b + 1] == list[j].id;
    } else if i > 0 {
      ListKeepsOrder(order[1..], tasks, startedAt, now, seen, i - 1, j - 1);
      var a, b :| 0 <= a < b < |order[1..]| && order[1..][a] == rest[i - 1].id && order[1..][b] == rest[j - 1].id;
      assert order[a + 1] == list[i].id && order[b + 1] == list[j].id;
    } else {
      ListedExactly(order[1..], tasks, startedAt, now, seen, list[j].id, list[j].reason);
      assert list[j] == rest[j - 1] && list[j] in rest;
      var b :| 0 <= b < |order[1..]| && order[1..][b] == list[j].id;
      assert order[0] == list[0].id && order[b + 1] == list[j].id;
    }
  }

  // ---------------------------------------------------------------------------
  // What a run and an edit leave on the row
  // ---------------------------------------------------------------------------

  /** The time is the earliest at which one of the timers runs after `from`; nothing where there is no timer. */
  ghost predicate EarliestTimer(triggers: seq<Trigger>, from: int, next: Option<int>) {
    && (next.None? <==> forall trigger | trigger in triggers :: !trigger.Every?)
    && (next.Some? ==>
          && (exists trigger | trigger in triggers :: NextRun(trigger, from) == next)
          && (forall trigger | trigger in triggers && NextRun(trigger, from).Some? ::
                next.value <= NextRun(trigger, from).value))
  }

  lemma {:induction false} NextTimerIsEarliest(triggers: seq<Trigger>, from: int)
    ensures EarliestTimer(triggers, from, NextTimerRun(triggers, from))
  {
    if triggers != [] {
      TimersKnow(triggers[0], from);
      NextTimerIsEarliest(triggers[1..], from);
      hide NextRun;
      assert triggers == [triggers[0]] + triggers[1..];
    }
  }

  lemma TimersKnow(trigger: Trigger, from: int)
    ensures NextRun(trigger, from).Some? <==> trigger.Every?
  {
    hide DaySlot, WeekSlot, MonthSlot;
  }

  predicate Ends(s: Server, event: Event) {
    (event.Finish? && s.current.Some?) || (event.FinishManual? && event.index < |s.manual|)
  }

  /** The run that the event ends, the scheduler's or an operator's. */
  function Ending(s: Server, event: Event): Run
    requires Ends(s, event)
  {
    if event.Finish? then s.current.value else s.manual[event.index]
  }

  /** The end of a run leaves on the row when it began and how it went, and the earliest timer after it ended, as read
      when it began; nothing else of any row changes. */
  lemma {:induction false} EndRecords(s: Server, event: Event)
    requires Ends(s, event) && s.clock <= event.now && Ending(s, event).id in s.tasks
    ensures var run, t := Ending(s, event), Step(s, event);
            var row := t.tasks[run.id];
            && t.tasks == s.tasks[run.id := row]
            && row == s.tasks[run.id].(lastRunAt := Some(run.started), succeeded := Some(event.ok),
                                       nextRunAt := row.nextRunAt)
            && (!run.enabled ==> row.nextRunAt.None?)
            && (run.enabled ==> EarliestTimer(run.triggers, event.now, row.nextRunAt))
  {
    NextTimerIsEarliest(Ending(s, event).triggers, event.now);
    hide NextTimerRun, EarliestTimer;
  }

  /** An edit leaves what it asks for, and the earliest timer after it. */
  lemma {:induction false} EditRecords(s: Server, event: Event)
    requires event.Edit? && s.clock <= event.now && event.id in s.tasks
    requires |event.triggers| <= 8
             && forall trigger | trigger in event.triggers :: Validate(trigger, event.id, event.schedulable).None?
    ensures var t := Step(s, event);
            var row := t.tasks[event.id];
            && t == s.(tasks := s.tasks[event.id := row], clock := event.now)
            && row == s.tasks[event.id].(enabled := event.enabled, triggers := event.triggers,
                                         nextRunAt := row.nextRunAt)
            && (!event.enabled ==> row.nextRunAt.None?)
            && (event.enabled ==> EarliestTimer(event.triggers, event.now, row.nextRunAt))
  {
    NextTimerIsEarliest(event.triggers, event.now);
    hide NextTimerRun, EarliestTimer, Validate;
  }

  /** And changes nothing if it breaks a rule. */
  lemma {:induction false} EditIsRefused(s: Server, event: Event)
    requires event.Edit?
    requires |event.triggers| > 8
             || exists trigger | trigger in event.triggers :: Validate(trigger, event.id, event.schedulable).Some?
    ensures Step(s, event) == s
  {
    if |event.triggers| <= 8 {
      var trigger :| trigger in event.triggers && Validate(trigger, event.id, event.schedulable).Some?;
      var i :| 0 <= i < |event.triggers| && event.triggers[i] == trigger;
    }
    hide Validate;
  }

  // ---------------------------------------------------------------------------
  // Running what asks
  // ---------------------------------------------------------------------------

  /** The scheduler takes the next of its list, and its run ends. */
  datatype Turn = Turn(begins: int, finishes: int, ok: bool)

  predicate InTime(clock: int, turns: seq<Turn>)
    decreases |turns|
  {
    turns != [] ==> clock <= turns[0].begins <= turns[0].finishes && InTime(turns[0].finishes, turns[1..])
  }

  function Taken(turns: seq<Turn>): seq<Event>
    decreases |turns|
  {
    if turns == [] then []
    else [Begin(turns[0].begins)] + ([Finish(turns[0].finishes, turns[0].ok)] + Taken(turns[1..]))
  }

  function AfterTurn(s: Server, turn: Turn): Server {
    Step(Step(s, Begin(turn.begins)), Finish(turn.finishes, turn.ok))
  }

  /** The log holds a run of the task for this tick and reason, ended, from this index on. */
  ghost predicate RanFor(log: seq<Entry>, from: nat, id: string, reason: Reason, tick: nat) {
    exists i :: from <= i < |log| && log[i].id == id && log[i].reason == reason && log[i].tick == tick
                && log[i].finished.Some?
  }

  lemma {:induction false} OneTurn(s: Server, turn: Turn)
    requires s.current.None? && s.pending != [] && s.clock <= turn.begins <= turn.finishes
    ensures var t, due := AfterTurn(s, turn), s.pending[0];
            && t.current.None? && t.pending == s.pending[1..] && t.claims == s.claims && t.tasks.Keys == s.tasks.Keys
            && t.ticks == s.ticks && t.clock <= turn.finishes
            && t.log == if due.id in s.claims || due.id !in s.tasks then s.log
                        else s.log + [Entry(due.id, due.reason, s.boot, s.ticks, s.tickedAt, turn.begins,
                                            Some(End(turn.finishes, s.ticks)))]
  {
    var t, due := AfterTurn(s, turn), s.pending[0];
    if due.id !in s.claims && due.id in s.tasks {
      assert s.claims + {due.id} - {due.id} == s.claims;
    }
    hide Recorded;
  }

  lemma {:induction false} IdleTurn(s: Server, turn: Turn)
    requires s.current.None? && s.pending == []
    ensures AfterTurn(s, turn) == s
  {
  }

  lemma {:induction false} TakenUnrolls(s: Server, turns: seq<Turn>)
    requires turns != []
    ensures AfterAll(s, Taken(turns))
            == AfterAll(AfterTurn(s, turns[0]), Taken(turns[1..]))
  {
    hide Step;
    var rest := [Finish(turns[0].finishes, turns[0].ok)] + Taken(turns[1..]);
    assert Taken(turns)[1..] == rest && rest[1..] == Taken(turns[1..]);
  }

  lemma {:induction false} LogGrows(s: Server, turns: seq<Turn>)
    requires s.current.None? && InTime(s.clock, turns)
    ensures s.log <= AfterAll(s, Taken(turns)).log
    decreases |turns|
  {
    if turns != [] {
      TakenUnrolls(s, turns);
      NextTurn(s, turns);
      hide Step, AfterTurn, AfterAll, Taken, InTime;
      LogGrows(AfterTurn(s, turns[0]), turns[1..]);
    }
  }

  lemma {:induction false} NextTurn(s: Server, turns: seq<Turn>)
    requires turns != [] && s.current.None? && InTime(s.clock, turns)
    ensures var t := AfterTurn(s, turns[0]);
            t.current.None? && InTime(t.clock, turns[1..]) && s.log <= t.log
  {
    if s.pending == [] {
      IdleTurn(s, turns[0]);
      EarlierToo(turns[0].finishes, s.clock, turns[1..]);
    } else {
      OneTurn(s, turns[0]);
      EarlierToo(turns[0].finishes, AfterTurn(s, turns[0]).clock, turns[1..]);
    }
    hide Step, AfterTurn;
  }

  lemma EarlierToo(late: int, early: int, turns: seq<Turn>)
    requires early <= late && InTime(late, turns)
    ensures InTime(early, turns)
  {
  }

  /** Every task on the list that nobody is running is run, if the scheduler gets as many turns as the list is long. */
  lemma {:induction false} ListIsRun(s: Server, turns: seq<Turn>, due: Due)
    requires s.current.None? && due in s.pending && due.id !in s.claims && due.id in s.tasks
    requires InTime(s.clock, turns) && |turns| >= |s.pending|
    ensures RanFor(AfterAll(s, Taken(turns)).log, |s.log|, due.id, due.reason, s.ticks)
    decreases |turns|
  {
    var t := AfterTurn(s, turns[0]);
    TakenUnrolls(s, turns);
    NextTurn(s, turns);
    OneTurn(s, turns[0]);
    hide Step, AfterTurn, AfterAll, Taken, InTime;
    var end := AfterAll(t, Taken(turns[1..]));
    if due == s.pending[0] {
      LogGrows(t, turns[1..]);
      assert end.log[|s.log|] == t.log[|s.log|];
    } else {
      assert due in s.pending[1..];
      ListIsRun(t, turns[1..], due);
      LogGrows(t, turns[1..]);
    }
  }

  /** A tick lists the due tasks it names, each for the first of its triggers that is due. */
  lemma {:induction false} DueTaskIsListed(s: Server, tick: Event, id: string, k: nat)
    returns (i: nat, reason: Reason)
    requires tick.Tick? && s.clock <= tick.now && s.pending == [] && s.current.None? && Distinct(tick.order)
    requires id in tick.order && id in s.tasks && s.tasks[id].enabled && k < |s.tasks[id].triggers|
    requires IsDue(s.tasks[id].triggers[k], s.tasks[id], s.tasks, s.startedAt, tick.now, tick.seen)
    ensures FirstDue(s.tasks[id], i, s.tasks, s.startedAt, tick.now, tick.seen)
    ensures Names(reason, s.tasks[id].triggers[i], s.tasks[id], s.tasks)
    ensures var t := Step(s, tick);
            && Due(id, reason) in t.pending && |t.pending| <= |tick.order|
            && t == s.(pending := t.pending, ticks := s.ticks + 1, tickedAt := tick.now, clock := tick.now)
  {
    var task := s.tasks[id];
    i := FirstToFireExactly(task.triggers, task, s.tasks, s.startedAt, tick.now, tick.seen);
    reason := Asking(task, s.tasks, s.startedAt, tick.now, tick.seen).value;
    ListedExactly(tick.order, s.tasks, s.startedAt, tick.now, tick.seen, id, reason);
    ListIsShort(tick.order, s.tasks, s.startedAt, tick.now, tick.seen);
    hide DueList, FirstToFire, IsDue, Names;
  }

  /** So a due task that nobody is running is run: once the scheduler has taken its list's turns, the log holds the run,
      ended, for that trigger. */
  lemma {:induction false} DueTaskRuns(s: Server, tick: Event, turns: seq<Turn>, id: string, k: nat)
    returns (i: nat, reason: Reason)
    requires tick.Tick? && s.clock <= tick.now && s.pending == [] && s.current.None? && Distinct(tick.order)
    requires id in tick.order && id in s.tasks && s.tasks[id].enabled && k < |s.tasks[id].triggers|
    requires IsDue(s.tasks[id].triggers[k], s.tasks[id], s.tasks, s.startedAt, tick.now, tick.seen)
    requires id !in s.claims && InTime(tick.now, turns) && |turns| >= |tick.order|
    ensures FirstDue(s.tasks[id], i, s.tasks, s.startedAt, tick.now, tick.seen)
    ensures Names(reason, s.tasks[id].triggers[i], s.tasks[id], s.tasks)
    ensures RanFor(AfterAll(Step(s, tick), Taken(turns)).log, |s.log|, id, reason, s.ticks + 1)
  {
    i, reason := DueTaskIsListed(s, tick, id, k);
    hide Step, IsDue, Names, InTime, RanFor, FirstDue, AfterAll, Taken, Distinct;
    ListIsRun(Step(s, tick), turns, Due(id, reason));
  }

  lemma {:induction false} ListIsShort(order: seq<string>, tasks: map<string, Task>, startedAt: int, now: int,
                                       seen: Trigger -> bool)
    ensures |DueList(order, tasks, startedAt, now, seen)| <= |order|
  {
    hide Asking;
    if order != [] {
      ListIsShort(order[1..], tasks, startedAt, now, seen);
    }
  }

  /** After a restart nobody is running anything, the rows and the log are as they were, and a startup trigger is due
      once its delay has passed since the restart, unless the task has run by then. */
  lemma {:induction false} RestartStartsAgain(s: Server, restart: Event, delay: int, task: Task, later: int,
                                              seen: Trigger -> bool)
    requires restart.Restart? && s.clock <= restart.now
    ensures var t := Step(s, restart);
            && t.claims == {} && t.manual == [] && t.pending == [] && t.current.None?
            && t.tasks == s.tasks && t.log == s.log && t.boot == s.boot + 1
            && (IsDue(Startup(delay), task, t.tasks, t.startedAt, later, seen)
                <==> restart.now + delay * 60_000_000_000 <= later
                     && (task.lastRunAt.None? || task.lastRunAt.value < restart.now))
  {
  }
}
