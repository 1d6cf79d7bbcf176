/** The timers of src/triggers.rs. Times are nanoseconds since 1970-01-01T00:00Z. */
module Triggers {
  import opened Calendar
  import opened Options

  const MINUTES_PER_DAY: int := 1440
  const MIN_GAP_MINUTES: int := 5

  function Minutes(n: int): int {
    n * 60_000_000_000
  }

  function Days(n: int): int {
    n * 86_400_000_000_000
  }

  function DayOf(time: int): int {
    time / 86_400_000_000_000
  }

  function TimeOfDay(time: int): int {
    time % 86_400_000_000_000
  }

  function Midnight(time: int): int {
    Days(DayOf(time))
  }

  datatype Unit = Minute | Hour | Day | Week | Month {
    function InMinutes(): int {
      match this
      case Minute => 1
      case Hour => 60
      case Day => 1440
      case Week => 7 * 1440
      case Month => 28 * 1440
    }
  }

  datatype Metric = PendingUploads | UnresolvedGames | ExpiredEvents | DatabaseBytes | FreeDiskBytes

  datatype Comparison = Above | Below {
    predicate Holds(measured: int, threshold: int) {
      if Above? then measured > threshold else measured < threshold
    }
  }

  datatype Trigger =
    | Every(count: int, unit: Unit, atMinute: Option<int>, weekday: Option<int>, day: Option<int>)
    | Startup(delayMinutes: int)
    | AfterTask(task: string, delayMinutes: int)
    | OnEvent(kinds: seq<string>, minGapMinutes: int)
    | Condition(metric: Metric, comparison: Comparison, value: int, minGapMinutes: int)

  datatype Fault =
    | IntervalBelowOne
    | IntervalTooShort
    | IntervalTooLong
    | NotAMinute
    | NotAWeekday
    | NotADay
    | WaitsForItself
    | UnknownTask
    | DelayTooLong
    | TooManyKinds
    | BlankKind
    | NegativeThreshold

  predicate InRange(value: Option<int>, low: int, high: int) {
    value.Some? ==> low <= value.value < high
  }

  function BoundedDelay(minutes: int): Option<Fault> {
    if 0 <= minutes <= 7 * MINUTES_PER_DAY then None else Some(DelayTooLong)
  }

  predicate Blank(kind: string) {
    forall i | 0 <= i < |kind| :: kind[i] == ' ' || kind[i] == '\t' || kind[i] == '\n' || kind[i] == '\r'
  }

  /** What is wrong with a trigger, if anything; `schedulable` names the tasks there are. */
  function Validate(trigger: Trigger, owner: string, schedulable: set<string>): Option<Fault> {
    match trigger
    case Every(count, unit, atMinute, weekday, day) =>
      if count < 1 then Some(IntervalBelowOne)
      else if count * unit.InMinutes() < MIN_GAP_MINUTES then Some(IntervalTooShort)
      else if count * unit.InMinutes() > 366 * MINUTES_PER_DAY then Some(IntervalTooLong)
      else if !InRange(atMinute, 0, MINUTES_PER_DAY) then Some(NotAMinute)
      else if !InRange(weekday, 0, 7) then Some(NotAWeekday)
      else if !InRange(day, 1, 32) then Some(NotADay)
      else None
    case Startup(delay) => BoundedDelay(delay)
    case AfterTask(task, delay) =>
      if task == owner then Some(WaitsForItself)
      else if task !in schedulable then Some(UnknownTask)
      else BoundedDelay(delay)
    case OnEvent(kinds, gap) =>
      if |kinds| > 12 then Some(TooManyKinds)
      else if exists i | 0 <= i < |kinds| :: Blank(kinds[i]) then Some(BlankKind)
      else BoundedDelay(gap)
    case Condition(_, _, value, gap) =>
      if value < 0 then Some(NegativeThreshold) else BoundedDelay(gap)
  }

  predicate Shows(kind: string) {
    exists c | c in kind :: c != ' ' && c != '\t' && c != '\n' && c != '\r'
  }

  /** What `validate` accepts: timers between five minutes and 366 days apart on times there are, delays and gaps of up
      to a week, another task that there is, up to twelve kinds that are not blank, and thresholds from zero on. */
  predicate Proper(trigger: Trigger, owner: string, schedulable: set<string>) {
    match trigger
    case Every(count, unit, atMinute, weekday, day) =>
      var minutes := match unit
        case Minute => count
        case Hour => count * 60
        case Day => count * 1440
        case Week => count * 10_080
        case Month => count * 40_320;
      && count >= 1 && 5 <= minutes <= 527_040
      && (atMinute.None? || 0 <= atMinute.value <= 1439)
      && (weekday.None? || 0 <= weekday.value <= 6)
      && (day.None? || 1 <= day.value <= 31)
    case Startup(delay) => 0 <= delay <= 10_080
    case AfterTask(task, delay) => task != owner && task in schedulable && 0 <= delay <= 10_080
    case OnEvent(kinds, gap) =>
      && |kinds| <= 12 && 0 <= gap <= 10_080
      && forall kind | kind in kinds :: Shows(kind)
    case Condition(_, _, value, gap) => value >= 0 && 0 <= gap <= 10_080
  }

  lemma BlankExactly(kind: string)
    ensures Blank(kind) <==> !Shows(kind)
  {
    if !Blank(kind) {
      var i :| 0 <= i < |kind| && !(kind[i] == ' ' || kind[i] == '\t' || kind[i] == '\n' || kind[i] == '\r');
      assert kind[i] in kind;
    }
  }

  lemma BlanksExactly(kinds: seq<string>)
    ensures (exists i | 0 <= i < |kinds| :: Blank(kinds[i])) <==> exists kind | kind in kinds :: !Shows(kind)
  {
    forall i | 0 <= i < |kinds|
      ensures Blank(kinds[i]) <==> !Shows(kinds[i])
    {
      BlankExactly(kinds[i]);
    }
    hide Blank, Shows;
    if kind :| kind in kinds && !Shows(kind) {
      var i :| 0 <= i < |kinds| && kinds[i] == kind;
    }
  }

  lemma ValidateExactly(trigger: Trigger, owner: string, schedulable: set<string>)
    ensures Validate(trigger, owner, schedulable).None? <==> Proper(trigger, owner, schedulable)
  {
    if trigger.OnEvent? {
      BlanksExactly(trigger.kinds);
      hide Blank, Shows;
    }
  }

  // ---------------------------------------------------------------------------
  // Next runs
  // ---------------------------------------------------------------------------

  /** The minute of the day, wrapped into one. */
  function Minute(atMinute: int): (minute: int)
    ensures 0 <= minute < 1440
  {
    atMinute % 1440
  }

  function DaySlot(from: int, count: int, atMinute: int): int {
    var today := Midnight(from) + Minutes(Minute(atMinute));
    if today > from then today else today + Days(count)
  }

  /** The first occurrence of the weekday from `from`'s day on. */
  function ThisWeek(from: int, weekday: int, atMinute: int): int {
    Midnight(from) + Days((weekday % 7 - Weekday(DayOf(from))) % 7) + Minutes(Minute(atMinute))
  }

  function WeekSlot(from: int, count: int, weekday: int, atMinute: int): int {
    var first := ThisWeek(from, weekday, atMinute);
    if first > from then first else first + Days(7 * count)
  }

  /** The slot of one month: the day asked for or its last, at the minute asked for. */
  function SlotIn(month: int, day: int, atMinute: int): int {
    Days(OnDay(month, day)) + Minutes(Minute(atMinute))
  }

  function MonthSlot(from: int, count: int, day: int, atMinute: int): int {
    var month := MonthOf(DayOf(from));
    var here := SlotIn(month, day, atMinute);
    if here > from then here else SlotIn(month + Clamp(count, 1, 120), day, atMinute)
  }

  function AtLeastOne(count: int): int {
    if count < 1 then 1 else count
  }

  /** When a trigger next runs after `from`; only timers know. */
  function NextRun(trigger: Trigger, from: int): Option<int> {
    if !trigger.Every? then None
    else
      var count := AtLeastOne(trigger.count);
      var at := trigger.atMinute.Or(0);
      match trigger.unit
      case Minute => Some(from + Minutes(count))
      case Hour => Some(from + Minutes(60 * count))
      case Day => Some(DaySlot(from, count, at))
      case Week => Some(WeekSlot(from, count, trigger.weekday.Or(0), at))
      case Month => Some(MonthSlot(from, count, trigger.day.Or(1), at))
  }

  method StepDays(from: int, count: int, atMinute: int) returns (candidate: int)
    requires count >= 1
    ensures candidate == DaySlot(from, count, atMinute)
  {
    var today := Midnight(from) + Minutes(Minute(atMinute));
    candidate := today;
    while candidate <= from
      invariant candidate == today || (candidate == today + Days(count) && today <= from < candidate)
      decreases from - candidate
    {
      candidate := candidate + Days(count);
    }
  }

  method StepWeeks(from: int, count: int, weekday: int, atMinute: int) returns (candidate: int)
    requires count >= 1
    ensures candidate == WeekSlot(from, count, weekday, atMinute)
  {
    var ahead := (weekday % 7 - Weekday(DayOf(from))) % 7;
    var first := Midnight(from) + Days(ahead) + Minutes(Minute(atMinute));
    candidate := first;
    while candidate <= from
      invariant candidate == first || (candidate == first + Days(7 * count) && first <= from < candidate)
      decreases from - candidate
    {
      candidate := candidate + Days(7 * count);
    }
  }

  /** The loop is written for fourteen tries and a fallback; it returns by the second. */
  method StepMonths(from: int, count: int, day: int, atMinute: int) returns (candidate: int)
    requires count >= 1
    ensures candidate == MonthSlot(from, count, day, atMinute)
  {
    hide FirstDay, DaysInMonth, MonthOf;
    var months := Clamp(count, 1, 120);
    var month := MonthOf(DayOf(from));
    var anchor := DayOf(from);
    candidate := from + Days(30);
    for i := 0 to 14
      invariant i <= 1
      invariant i == 0 ==> anchor == DayOf(from)
      invariant i == 1 ==> MonthOf(anchor) == month + months && SlotIn(month, day, atMinute) <= from
    {
      if i == 1 {
        LaterMonthIsLater(from, MonthOf(anchor), day, atMinute);
      }
      var slot := Days(OnDay(MonthOf(anchor), day)) + Minutes(Minute(atMinute));
      if slot > from {
        return slot;
      }
      OnDayInMonth(MonthOf(anchor) + months, anchor - FirstDay(MonthOf(anchor)) + 1);
      anchor := AddMonths(anchor, months);
    }
    assert false;
  }

  method NextRunAfter(trigger: Trigger, from: int) returns (next: Option<int>)
    ensures next == NextRun(trigger, from)
  {
    if !trigger.Every? {
      return None;
    }
    var count := AtLeastOne(trigger.count);
    var at := trigger.atMinute.Or(0);
    var time;
    match trigger.unit {
      case Minute => time := from + Minutes(count);
      case Hour => time := from + Minutes(60 * count);
      case Day => time := StepDays(from, count, at);
      case Week => time := StepWeeks(from, count, trigger.weekday.Or(0), at);
      case Month => time := StepMonths(from, count, trigger.day.Or(1), at);
    }
    return Some(time);
  }

  // ---------------------------------------------------------------------------
  // Where they land
  // ---------------------------------------------------------------------------

  lemma LaterMonthIsLater(from: int, month: int, day: int, atMinute: int)
    requires month > MonthOf(DayOf(from))
    ensures SlotIn(month, day, atMinute) > from
  {
    hide FirstDay, OnDay, MonthOf;
    OnDayInMonth(month, day);
    FirstDaysIncrease(MonthOf(DayOf(from)) + 1, month);
  }

  lemma EarlierMonthIsPast(from: int, month: int, day: int, atMinute: int)
    requires month < MonthOf(DayOf(from))
    ensures SlotIn(month, day, atMinute) <= from
  {
    hide FirstDay, OnDay, MonthOf;
    OnDayInMonth(month, day);
    FirstDaysIncrease(month + 1, MonthOf(DayOf(from)));
  }

  /** Every timer moves forward, whatever its fields. */
  lemma NextRunIsLater(trigger: Trigger, from: int)
    requires trigger.Every?
    ensures NextRun(trigger, from).Some? && NextRun(trigger, from).value > from
  {
    hide FirstDay, OnDay, MonthOf, Weekday;
    if trigger.unit.Month? {
      var day, at := trigger.day.Or(1), trigger.atMinute.Or(0);
      LaterMonthIsLater(from, MonthOf(DayOf(from)) + Clamp(AtLeastOne(trigger.count), 1, 120), day, at);
    }
  }

  /** A day timer lands on its minute, on `from`'s day or `count` days on, no later than `count` days after. */
  lemma DayTimerLands(from: int, count: int, atMinute: int)
    requires count >= 1 && 0 <= atMinute < MINUTES_PER_DAY
    ensures var next := DaySlot(from, count, atMinute);
            && from < next <= from + Days(count)
            && TimeOfDay(next) == Minutes(atMinute)
            && (DayOf(next) == DayOf(from) || DayOf(next) == DayOf(from) + count)
  {
  }

  /** With a count of one, no slot between `from` and the answer was skipped. */
  lemma DailyTimerIsLeast(from: int, atMinute: int, time: int)
    requires 0 <= atMinute < MINUTES_PER_DAY
    requires time > from && TimeOfDay(time) == Minutes(atMinute)
    ensures DaySlot(from, 1, atMinute) <= time
  {
  }

  lemma WeekdayAhead(day: int, weekday: int)
    requires 0 <= weekday < 7
    ensures Weekday(day + (weekday - Weekday(day)) % 7) == weekday
  {
  }

  lemma WholeWeeks(day: int, weeks: int)
    ensures Weekday(day + 7 * weeks) == Weekday(day)
  {
  }

  /** A week timer lands on its weekday and minute, strictly after `from` and within `count` weeks of it. */
  lemma WeekTimerLands(from: int, count: int, weekday: int, atMinute: int)
    requires count >= 1 && 0 <= weekday < 7 && 0 <= atMinute < MINUTES_PER_DAY
    ensures var next := WeekSlot(from, count, weekday, atMinute);
            && from < next <= from + Days(7 * count)
            && TimeOfDay(next) == Minutes(atMinute)
            && Weekday(DayOf(next)) == weekday
  {
    var today := DayOf(from);
    var ahead := (weekday - Weekday(today)) % 7;
    WeekdayAhead(today, weekday);
    WholeWeeks(today + ahead, count);
    ThisWeekIs(from, weekday, atMinute);
    SlotOn(today + ahead, atMinute);
    SlotOn(today + ahead + 7 * count, atMinute);
    WithinItsDay(from);
    hide Weekday, DayOf, TimeOfDay, ThisWeek;
  }

  lemma ThisWeekIs(from: int, weekday: int, atMinute: int)
    requires 0 <= weekday < 7 && 0 <= atMinute < MINUTES_PER_DAY
    ensures var ahead := (weekday - Weekday(DayOf(from))) % 7;
            ThisWeek(from, weekday, atMinute) == Days(DayOf(from) + ahead) + Minutes(atMinute) && 0 <= ahead < 7
  {
    hide DayOf, Weekday;
  }

  lemma SlotOn(day: int, atMinute: int)
    requires 0 <= atMinute < MINUTES_PER_DAY
    ensures DayOf(Days(day) + Minutes(atMinute)) == day && TimeOfDay(Days(day) + Minutes(atMinute)) == Minutes(atMinute)
  {
  }

  lemma WithinItsDay(time: int)
    ensures Days(DayOf(time)) <= time == Days(DayOf(time)) + TimeOfDay(time) < Days(DayOf(time) + 1)
  {
  }

  lemma WeeklyTimerIsLeast(from: int, weekday: int, atMinute: int, time: int)
    requires 0 <= weekday < 7 && 0 <= atMinute < MINUTES_PER_DAY
    requires time > from && TimeOfDay(time) == Minutes(atMinute) && Weekday(DayOf(time)) == weekday
    ensures WeekSlot(from, 1, weekday, atMinute) <= time
  {
    var today := DayOf(from);
    var ahead := (weekday - Weekday(today)) % 7;
    WeekdayAhead(today, weekday);
    ThisWeekIs(from, weekday, atMinute);
    WithinItsDay(from);
    WithinItsDay(time);
    WeeksApart(today + ahead, DayOf(time));
    hide Weekday, DayOf, TimeOfDay, ThisWeek;
  }

  lemma WeeksApart(day: int, other: int)
    requires Weekday(day) == Weekday(other)
    ensures (other - day) % 7 == 0
  {
  }

  /** A month timer lands in `from`'s month or exactly `count` months on - 120 at most - on the day asked for or
      the month's last, at its minute. */
  lemma MonthTimerLands(from: int, count: int, day: int, atMinute: int)
    requires count >= 1 && day >= 1 && 0 <= atMinute < MINUTES_PER_DAY
    ensures var next := MonthSlot(from, count, day, atMinute);
            var month := MonthOf(DayOf(next));
            && next > from
            && TimeOfDay(next) == Minutes(atMinute)
            && (month == MonthOf(DayOf(from)) || month == MonthOf(DayOf(from)) + if count <= 120 then count else 120)
            && var length := TableLength(Year(month), MonthOfYear(month));
               DayOf(next) == FirstDay(month) + (if day < length then day else length) - 1
  {
    hide FirstDay, MonthOf, TableLength;
    var here := MonthOf(DayOf(from));
    var next := MonthSlot(from, count, day, atMinute);
    var later := here + if count <= 120 then count else 120;
    LaterMonthIsLater(from, later, day, atMinute);
    var month := if SlotIn(here, day, atMinute) > from then here else later;
    assert DayOf(next) == OnDay(month, day);
    OnDayInMonth(month, day);
    DaysInMonthIsGregorian(month);
    MonthsHaveDays(month);
  }

  /** With a count of one, the answer is the earliest of all the months' slots after `from`. */
  lemma MonthlyTimerIsLeast(from: int, day: int, atMinute: int, month: int)
    requires SlotIn(month, day, atMinute) > from
    ensures MonthSlot(from, 1, day, atMinute) <= SlotIn(month, day, atMinute)
  {
    hide FirstDay, OnDay, MonthOf, SlotIn;
    var here := MonthOf(DayOf(from));
    if month < here {
      EarlierMonthIsPast(from, month, day, atMinute);
    } else if month > here + 1 {
      SlotsIncrease(here + 1, month, day, atMinute);
      SlotsIncrease(here, month, day, atMinute);
    } else if month == here + 1 {
      SlotsIncrease(here, month, day, atMinute);
    }
  }

  lemma SlotsIncrease(early: int, late: int, day: int, atMinute: int)
    requires early < late
    ensures SlotIn(early, day, atMinute) < SlotIn(late, day, atMinute)
  {
    hide FirstDay, OnDay, MonthOf;
    OnDayInMonth(early, day);
    OnDayInMonth(late, day);
    FirstDaysIncrease(early + 1, late);
  }

  /** Whatever `validate` accepts: strictly later, and for day and week timers within `count` units, on the dot. */
  lemma AcceptedTimersLand(trigger: Trigger, owner: string, schedulable: set<string>, from: int)
    requires trigger.Every? && Validate(trigger, owner, schedulable).None?
    ensures var next := NextRun(trigger, from).Or(from);
            && from < next
            && (!trigger.unit.Month? ==> next <= from + Minutes(trigger.count * trigger.unit.InMinutes()))
            && (trigger.unit.Day? || trigger.unit.Week? || trigger.unit.Month? ==>
                  TimeOfDay(next) == Minutes(trigger.atMinute.Or(0)))
            && (trigger.unit.Week? ==> Weekday(DayOf(next)) == trigger.weekday.Or(0))
            && (trigger.unit.Month? ==> MonthOf(DayOf(next)) - MonthOf(DayOf(from)) in {0, trigger.count})
  {
    hide FirstDay, OnDay, MonthOf, Weekday, DaySlot, WeekSlot, MonthSlot;
    var at := trigger.atMinute.Or(0);
    NextRunIsLater(trigger, from);
    match trigger.unit
    case Minute =>
    case Hour =>
    case Day => DayTimerLands(from, trigger.count, at);
    case Week => WeekTimerLands(from, trigger.count, trigger.weekday.Or(0), at);
    case Month => MonthTimerLands(from, trigger.count, trigger.day.Or(1), at);
  }

  /** Where an accepted timer lands, unit by unit: minutes and hours on from where it starts; and for the longer units
      on the first slot if that is still ahead, or otherwise exactly `count` units after it. */
  ghost predicate LandsOn(trigger: Trigger, from: int, next: int)
    requires trigger.Every?
  {
    var at, today := trigger.atMinute.Or(0), DayOf(from);
    var ahead := TimeOfDay(from) < at * 60_000_000_000;
    match trigger.unit
    case Minute => next == from + trigger.count * 60_000_000_000
    case Hour => next == from + trigger.count * 3_600_000_000_000
    case Day =>
      TimeOfDay(next) == at * 60_000_000_000 && DayOf(next) == today + if ahead then 0 else trigger.count
    case Week =>
      && TimeOfDay(next) == at * 60_000_000_000
      && exists first :: today <= first < today + 7 && Weekday(first) == trigger.weekday.Or(0)
           && DayOf(next) == first + if first > today || ahead then 0 else 7 * trigger.count
    case Month =>
      var month := MonthOf(today);
      var first := FirstDay(month) + Clamp(trigger.day.Or(1), 1, DaysInMonth(month)) - 1;
      var later := month + trigger.count;
      && TimeOfDay(next) == at * 60_000_000_000
      && DayOf(next) == if first > today || (first == today && ahead) then first
                        else FirstDay(later) + Clamp(trigger.day.Or(1), 1, DaysInMonth(later)) - 1
  }

  lemma WeekLandsOn(from: int, count: int, weekday: int, atMinute: int) returns (first: int)
    requires 0 <= weekday < 7 && 0 <= atMinute < MINUTES_PER_DAY
    ensures var next := WeekSlot(from, count, weekday, atMinute);
            && DayOf(from) <= first < DayOf(from) + 7 && Weekday(first) == weekday
            && TimeOfDay(next) == Minutes(atMinute)
            && DayOf(next)
               == first + if first > DayOf(from) || TimeOfDay(from) < Minutes(atMinute) then 0 else 7 * count
  {
    var today := DayOf(from);
    var ahead := (weekday - Weekday(today)) % 7;
    first := today + ahead;
    WeekdayAhead(today, weekday);
    ThisWeekIs(from, weekday, atMinute);
    SlotOn(first, atMinute);
    SlotOn(first + 7 * count, atMinute);
    WithinItsDay(from);
    hide Weekday, DayOf, TimeOfDay, ThisWeek;
  }

  lemma DayLandsOn(from: int, count: int, atMinute: int)
    requires 0 <= atMinute < MINUTES_PER_DAY
    ensures var next := DaySlot(from, count, atMinute);
            && TimeOfDay(next) == Minutes(atMinute)
            && DayOf(next) == DayOf(from) + if TimeOfDay(from) < Minutes(atMinute) then 0 else count
  {
    SlotOn(DayOf(from), atMinute);
    SlotOn(DayOf(from) + count, atMinute);
    WithinItsDay(from);
    SmallMinute(atMinute);
    hide DayOf, TimeOfDay, Minute;
  }

  lemma SmallMinute(atMinute: int)
    requires 0 <= atMinute < MINUTES_PER_DAY
    ensures Minute(atMinute) == atMinute
  {
  }

  lemma MonthLandsOn(from: int, count: int, day: int, atMinute: int)
    requires 1 <= count <= 120 && 0 <= atMinute < MINUTES_PER_DAY
    ensures var next, month := MonthSlot(from, count, day, atMinute), MonthOf(DayOf(from));
            && TimeOfDay(next) == Minutes(atMinute)
            && DayOf(next) == if OnDay(month, day) > DayOf(from)
                                 || (OnDay(month, day) == DayOf(from) && TimeOfDay(from) < Minutes(atMinute))
                              then OnDay(month, day) else OnDay(month + count, day)
  {
    hide FirstDay, DaysInMonth, Year, MonthOfYear;
    var month := MonthOf(DayOf(from));
    SlotOn(OnDay(month, day), atMinute);
    SlotOn(OnDay(month + count, day), atMinute);
    SlotAhead(from, OnDay(month, day), atMinute);
    SmallMinute(atMinute);
    hide DayOf, TimeOfDay, Minute, OnDay, MonthOf, Days, Minutes;
  }

  lemma SlotAhead(from: int, day: int, atMinute: int)
    requires 0 <= atMinute < MINUTES_PER_DAY
    ensures Days(day) + Minutes(atMinute) > from
            <==> day > DayOf(from) || (day == DayOf(from) && TimeOfDay(from) < Minutes(atMinute))
  {
    WithinItsDay(from);
    hide DayOf, TimeOfDay;
  }

  /** Every timer that `validate` accepts lands there. */
  lemma AcceptedTimersLandExactly(trigger: Trigger, owner: string, schedulable: set<string>, from: int)
    requires trigger.Every? && Validate(trigger, owner, schedulable).None?
    ensures NextRun(trigger, from).Some? && LandsOn(trigger, from, NextRun(trigger, from).value)
  {
    hide FirstDay, MonthOf, Weekday, DaySlot, WeekSlot, MonthSlot, DayOf, TimeOfDay, DaysInMonth;
    var at := trigger.atMinute.Or(0);
    match trigger.unit
    case Minute =>
    case Hour =>
    case Day => DayLandsOn(from, trigger.count, at);
    case Week =>
      var first := WeekLandsOn(from, trigger.count, trigger.weekday.Or(0), at);
    case Month => MonthLandsOn(from, trigger.count, trigger.day.Or(1), at);
  }

  /** A timer that `validate` never saw runs as the accepted one nearby: a count below one as one, minutes and weekdays
      modulo the day and the week, and a day or a count of months that is out of range as the nearest. */
  lemma StrayFieldsAreBroughtIn(trigger: Trigger, from: int, days: int, weeks: int, atMinute: int, weekday: int)
    requires trigger.Every? && 0 <= atMinute < 1440 && 0 <= weekday < 7
    requires trigger.atMinute.Or(0) == 1440 * days + atMinute && trigger.weekday.Or(0) == 7 * weeks + weekday
    ensures var most := if trigger.unit.Month? && trigger.count > 120 then 120 else trigger.count;
            var day := trigger.day.Or(1);
            NextRun(trigger, from)
            == NextRun(Every(if most < 1 then 1 else most, trigger.unit, Some(atMinute), Some(weekday),
                             Some(if day < 1 then 1 else if day > 31 then 31 else day)), from)
  {
    var at, on, day := trigger.atMinute.Or(0), trigger.weekday.Or(0), trigger.day.Or(1);
    MinuteWraps(at, atMinute, days);
    MinuteWraps(atMinute, atMinute, 0);
    hide DaySlot, WeekSlot, MonthSlot, Minute;
    match trigger.unit
    case Minute =>
    case Hour =>
    case Day => DaySlotBroughtIn(from, AtLeastOne(trigger.count), at, atMinute);
    case Week => WeekSlotBroughtIn(from, AtLeastOne(trigger.count), on, weekday, weeks, at, atMinute);
    case Month => MonthSlotBroughtIn(from, AtLeastOne(trigger.count), day, at, atMinute);
  }

  lemma DaySlotBroughtIn(from: int, count: int, at: int, atMinute: int)
    requires Minute(at) == Minute(atMinute)
    ensures DaySlot(from, count, at) == DaySlot(from, count, atMinute)
  {
    hide Minute, Midnight, Days;
  }

  lemma WeekSlotBroughtIn(from: int, count: int, on: int, weekday: int, weeks: int, at: int, atMinute: int)
    requires Minute(at) == Minute(atMinute) && 0 <= weekday < 7 && on == 7 * weeks + weekday
    ensures WeekSlot(from, count, on, at) == WeekSlot(from, count, weekday, atMinute)
  {
    WeekdayWraps(on, weekday, weeks);
    WeekdayWraps(weekday, weekday, 0);
    hide Minute, Midnight, Days, Weekday, DayOf;
    assert ThisWeek(from, on, at) == ThisWeek(from, weekday, atMinute);
    hide ThisWeek;
  }

  lemma MonthSlotBroughtIn(from: int, count: int, day: int, at: int, atMinute: int)
    requires Minute(at) == Minute(atMinute) && count >= 1
    ensures MonthSlot(from, count, day, at)
            == MonthSlot(from, if count > 120 then 120 else count,
                         if day < 1 then 1 else if day > 31 then 31 else day, atMinute)
  {
    SameClampedDay(MonthOf(DayOf(from)), day);
    SameClampedDay(MonthOf(DayOf(from)) + Clamp(count, 1, 120), day);
    hide Minute, DayOf, MonthOf, OnDay, Days;
  }

  lemma MinuteWraps(at: int, atMinute: int, days: int)
    requires 0 <= atMinute < 1440 && at == 1440 * days + atMinute
    ensures Minute(at) == atMinute
  {
  }

  lemma WeekdayWraps(on: int, weekday: int, weeks: int)
    requires 0 <= weekday < 7 && on == 7 * weeks + weekday
    ensures on % 7 == weekday
  {
  }

  lemma SameClampedDay(month: int, day: int)
    ensures OnDay(month, day) == OnDay(month, if day < 1 then 1 else if day > 31 then 31 else day)
  {
    DaysInMonthIsGregorian(month);
    MonthsHaveDays(month);
    hide FirstDay, DaysInMonth, Year, MonthOfYear;
  }
}
