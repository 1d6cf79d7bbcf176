/** When a task with a timer is left without a next run. */
module ScheduleTimers {
  import opened Options
  import opened Triggers
  import opened Schedule
  import opened ScheduleRuns

  predicate HasTimer(triggers: seq<Trigger>) {
    exists i | 0 <= i < |triggers| :: triggers[i].Every?
  }

  /** An enabled task with a timer knows its next run. */
  predicate Timed(task: Task) {
    task.enabled && HasTimer(task.triggers) ==> task.nextRunAt.Some?
  }

  lemma {:induction false} TimersKnowTheirNext(triggers: seq<Trigger>, from: int)
    ensures NextTimerRun(triggers, from).Some? <==> HasTimer(triggers)
  {
    hide NextRun;
    if triggers != [] {
      TimersKnowTheirNext(triggers[1..], from);
      if triggers[0].Every? {
        NextRunIsLater(triggers[0], from);
      } else {
        OnlyTimersKnow(triggers[0], from);
        assert HasTimer(triggers[1..]) ==> HasTimer(triggers) by {
          if i :| 0 <= i < |triggers[1..]| && triggers[1..][i].Every? {
            assert triggers[i + 1].Every?;
          }
        }
        assert HasTimer(triggers) ==> HasTimer(triggers[1..]) by {
          if i :| 0 <= i < |triggers| && triggers[i].Every? {
            assert triggers[1..][i - 1].Every?;
          }
        }
      }
    }
  }

  /** The end of a run reschedules from what the run read when it began: a row that has a timer by then keeps one
      exactly if the run was enabled and had a timer. */
  lemma EndKeepsTimerExactly(tasks: map<string, Task>, run: Run, now: int, ok: bool)
    requires run.id in tasks
    ensures var row := Ended(tasks, run, now, ok)[run.id];
            row.nextRunAt.Some? <==> run.enabled && HasTimer(run.triggers)
  {
    TimersKnowTheirNext(run.triggers, now);
    hide NextTimerRun, HasTimer;
  }

  /** The run a step ends, if it ends one. */
  function Ending(s: Server, event: Event): Option<Run> {
    if event.now < s.clock then None
    else if event.Finish? then s.current
    else if event.FinishManual? && event.index < |s.manual| then Some(s.manual[event.index])
    else None
  }

  /** Of all steps, exactly these leave an enabled task with a timer without a next run that was not before: the
      end of a run of that task that began when the task was off or had no timer. */
  lemma StepLeavesUntimedExactly(s: Server, event: Event, id: string)
    requires id in s.tasks && Timed(s.tasks[id])
    ensures id in Step(s, event).tasks
    ensures !Timed(Step(s, event).tasks[id])
            <==>
            && Ending(s, event).Some? && Ending(s, event).value.id == id
            && s.tasks[id].enabled && HasTimer(s.tasks[id].triggers)
            && !(Ending(s, event).value.enabled && HasTimer(Ending(s, event).value.triggers))
  {
    hide HasTimer, NextTimerRun, DueList, Acceptable;
    var ending := Ending(s, event);
    if ending.Some? && ending.value.id == id {
      EndKeepsTimerExactly(s.tasks, ending.value, event.now, event.ok);
    }
    if event.Edit? {
      TimersKnowTheirNext(event.triggers, event.now);
    }
  }

  // ---------------------------------------------------------------------------
  // Runs
  // ---------------------------------------------------------------------------

  /** No edit touches a task that is running. */
  ghost predicate EditsLeaveRunsAlone(s: Server, events: seq<Event>)
    decreases |events|
  {
    events != [] ==>
      && (events[0].Edit? ==> events[0].id !in s.claims)
      && EditsLeaveRunsAlone(Step(s, events[0]), events[1..])
  }

  /** What a run read of its task still stands. */
  ghost predicate UpToDate(tasks: map<string, Task>, run: Run) {
    run.id in tasks && tasks[run.id].enabled == run.enabled && tasks[run.id].triggers == run.triggers
  }

  ghost predicate AllTimed(s: Server) {
    && (forall i | 0 <= i < |Active(s)| :: UpToDate(s.tasks, Active(s)[i]))
    && (forall id | id in s.tasks :: Timed(s.tasks[id]))
  }

  lemma EndingIsActive(s: Server, event: Event)
    requires Ending(s, event).Some?
    ensures exists i | 0 <= i < |Active(s)| :: Active(s)[i] == Ending(s, event).value
  {
    var run := Ending(s, event).value;
    if event.Finish? {
      assert Active(s)[|s.manual|] == run;
    } else {
      assert Active(s)[event.index] == run;
    }
  }

  /** Every run in progress after a step was in progress before it, or has just read its row. */
  lemma RunsStayUpToDate(s: Server, event: Event, i: nat)
    requires Claimed(s) && (forall k | 0 <= k < |Active(s)| :: UpToDate(s.tasks, Active(s)[k]))
    requires event.Edit? ==> event.id !in s.claims
    requires i < |Active(Step(s, event))|
    ensures UpToDate(Step(s, event).tasks, Active(Step(s, event))[i])
  {
    hide DueList, Acceptable, NextTimerRun, Closed;
    var t, m := Step(s, event), |s.manual|;
    var run := Active(t)[i];
    if !(run.id in s.tasks && run == Starting(run.id, s.tasks[run.id], event.now, |s.log|)) {
      var k := if event.FinishManual? && t != s && i >= event.index then i + 1
               else if event.BeginManual? && t != s && i > m then i - 1 else i;
      assert run == Active(s)[k];
      assert UpToDate(s.tasks, Active(s)[k]);
      assert Active(s)[k].id in Ids(Active(s));
    }
  }

  lemma StepKeepsTimed(s: Server, event: Event)
    requires Claimed(s) && AllTimed(s) && (event.Edit? ==> event.id !in s.claims)
    ensures AllTimed(Step(s, event))
  {
    hide Step, Timed, HasTimer;
    forall i | 0 <= i < |Active(Step(s, event))|
      ensures UpToDate(Step(s, event).tasks, Active(Step(s, event))[i])
    {
      RunsStayUpToDate(s, event, i);
    }
    forall id | id in Step(s, event).tasks
      ensures Timed(Step(s, event).tasks[id])
    {
      StepsKeepTasks(s, event);
      StepLeavesUntimedExactly(s, event, id);
      if Ending(s, event).Some? {
        EndingIsActive(s, event);
      }
    }
  }

  lemma StepsKeepTasks(s: Server, event: Event)
    ensures Step(s, event).tasks.Keys == s.tasks.Keys
  {
  }

  lemma {:induction false} RunKeepsTimed(s: Server, events: seq<Event>)
    requires Inv(s) && AllTimed(s) && EditsLeaveRunsAlone(s, events)
    ensures AllTimed(AfterAll(s, events))
    decreases |events|
  {
    hide Step, AllTimed;
    if events != [] {
      StepKeepsInv(s, events[0]);
      StepKeepsTimed(s, events[0]);
      hide Inv;
      RunKeepsTimed(Step(s, events[0]), events[1..]);
    }
  }

  /** If no edit touches a task while it runs, every enabled task with a timer has a next run at all times. */
  lemma TimersStaySet(tasks: map<string, Task>, now: int, events: seq<Event>, id: string)
    requires RowsArePast(tasks, now) && forall other | other in tasks :: Timed(tasks[other])
    requires EditsLeaveRunsAlone(Booted(tasks, now), events)
    requires id in AfterAll(Booted(tasks, now), events).tasks
    ensures Timed(AfterAll(Booted(tasks, now), events).tasks[id])
  {
    hide Step, AfterAll, Timed;
    ReachableInv(tasks, now, []);
    assert AfterAll(Booted(tasks, now), []) == Booted(tasks, now) by { NothingHappens(Booted(tasks, now)); }
    RunKeepsTimed(Booted(tasks, now), events);
  }

  lemma NothingHappens(s: Server)
    ensures AfterAll(s, []) == s
  {
  }

  /** Without that, a task switched on while a run begun in its off state is going ends up enabled without a next
      run, whatever its timers, and they never ask for it. */
  lemma SwitchedOnDuringARunStaysUntimed(s: Server, id: string, triggers: seq<Trigger>, schedulable: set<string>,
                                         began: int,
                                         edited: int, ended: int, ok: bool, seen: Trigger -> bool, later: int)
    requires id in s.tasks && !s.tasks[id].enabled && id !in s.claims
    requires s.clock <= began <= edited <= ended
    requires Acceptable(triggers, id, schedulable) && HasTimer(triggers)
    ensures var t := Step(Step(Step(s, BeginManual(began, id)), Edit(edited, id, true, triggers, schedulable)),
                          FinishManual(ended, |s.manual|, ok));
            && t.tasks[id].enabled && t.tasks[id].triggers == triggers && t.tasks[id].nextRunAt.None?
            && !Asking(t.tasks[id], t.tasks, t.startedAt, later, seen).Or(Manual).Timer?
  {
    hide NextTimerRun, Acceptable, HasTimer, Closed, FirstToFire;
    var a := Step(s, BeginManual(began, id));
    var b := Step(a, Edit(edited, id, true, triggers, schedulable));
    assert a.manual[|s.manual|] == b.manual[|s.manual|] == Starting(id, s.tasks[id], began, |s.log|);
    var t := Step(b, FinishManual(ended, |s.manual|, ok));
    FirstToFireIsGrounded(triggers, t.tasks[id], t.tasks, t.startedAt, later, seen);
  }
}
