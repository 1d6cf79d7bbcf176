/** The task scheduler of src/schedule.rs: task rows, the claims that keep a task from running twice, the loop
    that asks every task whether it is due and then runs the ones that are, operators running and editing tasks
    meanwhile, and restarts. */
module Schedule {
  import opened Options
  import opened Triggers

  datatype Task = Task(enabled: bool, triggers: seq<Trigger>, nextRunAt: Option<int>, lastRunAt: Option<int>,
                       succeeded: Option<bool>)

  /** Why a task runs, with the moment that makes it due: the stored timer, or the parent's last run. */
  datatype Reason = Timer(due: int) | AtStartup | After(parent: string, due: int) | OnEventSeen | OnCondition | Manual

  // ---------------------------------------------------------------------------
  // Asking
  // ---------------------------------------------------------------------------

  /** The earliest of the timers. */
  function NextTimerRun(triggers: seq<Trigger>, from: int): Option<int> {
    if triggers == [] then None
    else
      var first, rest := NextRun(triggers[0], from), NextTimerRun(triggers[1..], from);
      if first.None? then rest
      else if rest.None? || first.value <= rest.value then first
      else rest
  }

  predicate GapElapsed(lastRun: Option<int>, minGapMinutes: int, now: int) {
    lastRun.Some? ==> now >= lastRun.value + Minutes(if minGapMinutes < 0 then 0 else minGapMinutes)
  }

  function AfterParent(tasks: map<string, Task>, parent: string, delayMinutes: int, lastRun: Option<int>,
                       now: int): Option<Reason> {
    if parent !in tasks || tasks[parent].succeeded != Some(true) || tasks[parent].lastRunAt.None? then None
    else
      var finished := tasks[parent].lastRunAt.value;
      if (lastRun.Some? ==> finished > lastRun.value) && now >= finished + Minutes(delayMinutes)
      then Some(After(parent, finished))
      else None
  }

  /** Whether one trigger fires. `seen` answers for what is outside: recorded events and measured conditions. */
  function Fires(trigger: Trigger, task: Task, tasks: map<string, Task>, startedAt: int, now: int,
                 seen: Trigger -> bool): Option<Reason> {
    match trigger
    case Every(_, _, _, _, _) =>
      if task.nextRunAt.Some? && task.nextRunAt.value <= now then Some(Timer(task.nextRunAt.value)) else None
    case Startup(delay) =>
      if now >= startedAt + Minutes(delay) && (task.lastRunAt.Some? ==> task.lastRunAt.value < startedAt)
      then Some(AtStartup) else None
    case AfterTask(parent, delay) => AfterParent(tasks, parent, delay, task.lastRunAt, now)
    case OnEvent(_, gap) => if GapElapsed(task.lastRunAt, gap, now) && seen(trigger) then Some(OnEventSeen) else None
    case Condition(_, _, _, gap) =>
      if GapElapsed(task.lastRunAt, gap, now) && seen(trigger) then Some(OnCondition) else None
  }

  /** The first trigger that fires gives the reason. */
  function FirstToFire(triggers: seq<Trigger>, task: Task, tasks: map<string, Task>, startedAt: int, now: int,
                       seen: Trigger -> bool): Option<Reason> {
    if triggers == [] then None
    else
      var fired := Fires(triggers[0], task, tasks, startedAt, now, seen);
      if fired.Some? then fired else FirstToFire(triggers[1..], task, tasks, startedAt, now, seen)
  }

  function Asking(task: Task, tasks: map<string, Task>, startedAt: int, now: int,
                  seen: Trigger -> bool): Option<Reason> {
    if !task.enabled then None else FirstToFire(task.triggers, task, tasks, startedAt, now, seen)
  }

  datatype Due = Due(id: string, reason: Reason)

  function DueList(order: seq<string>, tasks: map<string, Task>, startedAt: int, now: int,
                   seen: Trigger -> bool): seq<Due> {
    if order == [] then []
    else
      var rest := DueList(order[1..], tasks, startedAt, now, seen);
      if order[0] !in tasks then rest
      else
        var reason := Asking(tasks[order[0]], tasks, startedAt, now, seen);
        if reason.Some? then [Due(order[0], reason.value)] + rest else rest
  }

  // ---------------------------------------------------------------------------
  // Running
  // ---------------------------------------------------------------------------

  /** The row once a run has ended: rescheduled from what the run read when it began. */
  function Recorded(task: Task, enabled: bool, triggers: seq<Trigger>, started: int, finished: int, ok: bool): Task {
    task.(nextRunAt := if enabled then NextTimerRun(triggers, finished) else None,
          lastRunAt := Some(started), succeeded := Some(ok))
  }

  function Edited(task: Task, enabled: bool, triggers: seq<Trigger>, now: int): Task {
    task.(enabled := enabled, triggers := triggers, nextRunAt := if enabled then NextTimerRun(triggers, now) else None)
  }

  const MAX_TRIGGERS: nat := 8

  predicate Acceptable(triggers: seq<Trigger>, id: string, schedulable: set<string>) {
    |triggers| <= MAX_TRIGGERS && forall i | 0 <= i < |triggers| :: Validate(triggers[i], id, schedulable).None?
  }

  class Scheduler {
    var tasks: map<string, Task>
    var runningTasks: set<string>
    const startedAt: int

    constructor (tasks: map<string, Task>, startedAt: int)
      ensures this.tasks == tasks && this.startedAt == startedAt && runningTasks == {}
    {
      this.tasks, this.startedAt, runningTasks := tasks, startedAt, {};
    }

    /** Claim::take. */
    method Take(id: string) returns (claimed: bool)
      modifies this`runningTasks
      ensures claimed == (id !in old(runningTasks))
      ensures runningTasks == old(runningTasks) + {id}
    {
      claimed := id !in runningTasks;
      runningTasks := runningTasks + {id};
    }

    /** The claim's drop. */
    method Release(id: string)
      modifies this`runningTasks
      ensures runningTasks == old(runningTasks) - {id}
    {
      runningTasks := runningTasks - {id};
    }

    method AskingToRun(task: Task, now: int, seen: Trigger -> bool) returns (reason: Option<Reason>)
      ensures reason == Asking(task, tasks, startedAt, now, seen)
    {
      if !task.enabled {
        return None;
      }
      var i := 0;
      while i < |task.triggers|
        invariant 0 <= i <= |task.triggers|
        invariant FirstToFire(task.triggers, task, tasks, startedAt, now, seen)
               == FirstToFire(task.triggers[i..], task, tasks, startedAt, now, seen)
      {
        var fired := Fires(task.triggers[i], task, tasks, startedAt, now, seen);
        if fired.Some? {
          return fired;
        }
        i := i + 1;
      }
      return None;
    }

    method FindDue(order: seq<string>, now: int, seen: Trigger -> bool) returns (pending: seq<Due>)
      ensures pending == DueList(order, tasks, startedAt, now, seen)
    {
      pending := [];
      var i := 0;
      while i < |order|
        invariant 0 <= i <= |order|
        invariant DueList(order, tasks, startedAt, now, seen)
                  == pending + DueList(order[i..], tasks, startedAt, now, seen)
      {
        if order[i] in tasks {
          var reason := AskingToRun(tasks[order[i]], now, seen);
          if reason.Some? {
            pending := pending + [Due(order[i], reason.value)];
          }
        }
        i := i + 1;
      }
    }

    /** The end of `run`: the result on the row. */
    method RecordResult(id: string, enabled: bool, triggers: seq<Trigger>, started: int, finished: int, ok: bool)
      requires id in tasks
      modifies this`tasks
      ensures tasks == old(tasks)[id := Recorded(old(tasks)[id], enabled, triggers, started, finished, ok)]
    {
      var next := None;
      if enabled {
        next := NextTimer(triggers, finished);
      }
      tasks := tasks[id := tasks[id].(nextRunAt := next, lastRunAt := Some(started), succeeded := Some(ok))];
    }

    method NextTimer(triggers: seq<Trigger>, from: int) returns (next: Option<int>)
      ensures next == NextTimerRun(triggers, from)
    {
      next := None;
      var i := |triggers|;
      while i > 0
        invariant 0 <= i <= |triggers|
        invariant next == NextTimerRun(triggers[i..], from)
      {
        i := i - 1;
        var time := NextRun(triggers[i], from);
        if time.Some? && (next.None? || time.value <= next.value) {
          next := time;
        }
        assert triggers[i..][1..] == triggers[i + 1..];
      }
    }

    method Update(id: string, enabled: bool, triggers: seq<Trigger>, schedulable: set<string>, now: int)
      returns (accepted: bool)
      requires id in tasks
      modifies this`tasks
      ensures accepted == Acceptable(triggers, id, schedulable)
      ensures tasks == if accepted then old(tasks)[id := Edited(old(tasks)[id], enabled, triggers, now)] else old(tasks)
    {
      if |triggers| > MAX_TRIGGERS {
        return false;
      }
      for i := 0 to |triggers|
        invariant forall j | 0 <= j < i :: Validate(triggers[j], id, schedulable).None?
      {
        if Validate(triggers[i], id, schedulable).Some? {
          return false;
        }
      }
      var next := None;
      if enabled {
        next := NextTimer(triggers, now);
      }
      tasks := tasks[id := tasks[id].(enabled := enabled, triggers := triggers, nextRunAt := next)];
      return true;
    }
  }

  // ---------------------------------------------------------------------------
  // Runs of the server
  // ---------------------------------------------------------------------------

  /** A run in progress: what it read of its task, and which entry of the log it is. */
  datatype Run = Run(id: string, enabled: bool, triggers: seq<Trigger>, started: int, entry: nat)

  /** When a run ended, and how often the scheduler had asked its tasks by then. */
  datatype End = End(at: int, tick: nat)

  /** One run, whoever started it. `tick` counts the tick that listed it, and `asked` is when that was; for an
      operator's run, whose reason is Manual, both are those of its own start. */
  datatype Entry = Entry(id: string, reason: Reason, boot: nat, tick: nat, asked: int, started: int,
                         finished: Option<End>)

  /** The server: the rows, the operators' runs in progress, the scheduler's list and its own run, the claims,
      the log of all runs, the count and time of the ticks, and the clock. */
  datatype Server = Server(
    tasks: map<string, Task>,
    claims: set<string>,
    manual: seq<Run>,
    pending: seq<Due>,
    current: Option<Run>,
    log: seq<Entry>,
    ticks: nat,
    tickedAt: int,
    boot: nat,
    startedAt: int,
    clock: int)

  datatype Event =
    | Tick(now: int, order: seq<string>, seen: Trigger -> bool)
    | Begin(now: int)
    | Finish(now: int, ok: bool)
    | BeginManual(now: int, id: string)
    | FinishManual(now: int, index: nat, ok: bool)
    | Edit(now: int, id: string, enabled: bool, triggers: seq<Trigger>, schedulable: set<string>)
    | Restart(now: int)

  function Starting(id: string, task: Task, now: int, entry: nat): Run {
    Run(id, task.enabled, task.triggers, now, entry)
  }

  function Ended(tasks: map<string, Task>, run: Run, now: int, ok: bool): map<string, Task> {
    if run.id in tasks then tasks[run.id := Recorded(tasks[run.id], run.enabled, run.triggers, run.started, now, ok)]
    else tasks
  }

  function Closed(log: seq<Entry>, entry: nat, end: End): seq<Entry> {
    if entry < |log| then log[entry := log[entry].(finished := Some(end))] else log
  }

  predicate Distinct(order: seq<string>) {
    forall i, j | 0 <= i < j < |order| :: order[i] != order[j]
  }

  /** One step. The scheduler asks only when its last list is done, and runs the list one task at a time without
      asking again; a claimed task is skipped. An event out of turn, or back in time, does nothing. */
  function Step(s: Server, event: Event): Server {
    if event.now < s.clock then s
    else
      var t := s.(clock := event.now);
      match event
      case Tick(now, order, seen) =>
        if s.pending != [] || s.current.Some? || !Distinct(order) then s
        else t.(pending := DueList(order, s.tasks, s.startedAt, now, seen), ticks := s.ticks + 1, tickedAt := now)
      case Begin(now) =>
        if s.pending == [] || s.current.Some? then s
        else
          var due := s.pending[0];
          if due.id in s.claims || due.id !in s.tasks then t.(pending := s.pending[1..])
          else t.(pending := s.pending[1..], claims := s.claims + {due.id},
                  current := Some(Starting(due.id, s.tasks[due.id], now, |s.log|)),
                  log := s.log + [Entry(due.id, due.reason, s.boot, s.ticks, s.tickedAt, now, None)])
      case Finish(now, ok) =>
        if s.current.None? then s
        else t.(tasks := Ended(s.tasks, s.current.value, now, ok), claims := s.claims - {s.current.value.id},
                current := None,
                log := Closed(s.log, s.current.value.entry, End(now, s.ticks)))
      case BeginManual(now, id) =>
        if id in s.claims || id !in s.tasks then s
        else t.(claims := s.claims + {id}, manual := s.manual + [Starting(id, s.tasks[id], now, |s.log|)],
                log := s.log + [Entry(id, Manual, s.boot, s.ticks, now, now, None)])
      case FinishManual(now, index, ok) =>
        if index >= |s.manual| then s
        else t.(tasks := Ended(s.tasks, s.manual[index], now, ok), claims := s.claims - {s.manual[index].id},
                manual := s.manual[..index] + s.manual[index + 1..],
                log := Closed(s.log, s.manual[index].entry, End(now, s.ticks)))
      case Edit(now, id, enabled, triggers, schedulable) =>
        if id !in s.tasks || !Acceptable(triggers, id, schedulable) then s
        else t.(tasks := s.tasks[id := Edited(s.tasks[id], enabled, triggers, now)])
      case Restart(now) =>
        t.(claims := {}, manual := [], pending := [], current := None, boot := s.boot + 1, startedAt := now)
  }

  function AfterAll(s: Server, events: seq<Event>): Server
    decreases |events|
  {
    if events == [] then s else AfterAll(Step(s, events[0]), events[1..])
  }
}
