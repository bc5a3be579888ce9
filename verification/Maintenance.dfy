/** Scheduled disk maintenance (apps/root-worker/maintenance_schedule.go, maintenance.go):
    hourly slots in a calendar without daylight saving, and the runs they lead to. Times
    are nanoseconds of local time since the start of 1970. */
module Maintenance {
  import opened Text

  const HOUR: int := 3_600_000_000_000
  const SEARCH: nat := 24 * 62

  type Time = int

  // ── The calendar ────────────────────────────────────────────────────────────

  datatype Date = Date(year: int, month: int, day: int)

  predicate Leap(year: int) { year % 4 == 0 && (year % 100 != 0 || year % 400 == 0) }

  function DaysIn(year: int, month: int): (n: int)
    ensures 28 <= n <= 31
  {
    if month == 2 then if Leap(year) then 29 else 28
    else if month in {4, 6, 9, 11} then 30
    else 31
  }

  predicate ValidDate(d: Date) { 1 <= d.month <= 12 && 1 <= d.day <= DaysIn(d.year, d.month) }

  function DayAfter(d: Date): (r: Date)
    requires ValidDate(d)
    ensures ValidDate(r)
  {
    if d.day < DaysIn(d.year, d.month) then d.(day := d.day + 1)
    else if d.month < 12 then Date(d.year, d.month + 1, 1)
    else Date(d.year + 1, 1, 1)
  }

  function DayBefore(d: Date): (r: Date)
    requires ValidDate(d)
    ensures ValidDate(r) && DayAfter(r) == d
  {
    if d.day > 1 then d.(day := d.day - 1)
    else if d.month > 1 then Date(d.year, d.month - 1, DaysIn(d.year, d.month - 1))
    else Date(d.year - 1, 12, 31)
  }

  /** The date of the n-th day after 1 January 1970. */
  function DateOf(n: int): (d: Date)
    ensures ValidDate(d)
    decreases if n < 0 then -n else n
  {
    if n == 0 then Date(1970, 1, 1) else if n > 0 then DayAfter(DateOf(n - 1)) else DayBefore(DateOf(n + 1))
  }

  lemma {:induction false} DateFollows(n: int)
    ensures DateOf(n + 1) == DayAfter(DateOf(n))
  {}

  /** 1 January 1970 was a Thursday; 0 is Sunday. */
  function WeekdayOf(n: int): int { (n + 4) % 7 }

  lemma {:induction false} WeekdayFollows(n: int)
    ensures WeekdayOf(0) == 4 && 0 <= WeekdayOf(n) <= 6
    ensures WeekdayOf(n + 1) == if WeekdayOf(n) == 6 then 0 else WeekdayOf(n) + 1
  {}

  // ── The calendar in numbers ─────────────────────────────────────────────────

  /** The leap days in the years before this one. */
  ghost function LeapDays(year: int): int { Times(4, year - 1) - Times(100, year - 1) + Times(400, year - 1) }

  /** How many multiples of d there are up to n, from 1 on. */
  ghost function Times(d: int, n: int): int
    requires d > 0
  {
    n / d
  }

  lemma {:induction false} TimesNext(n: int)
    ensures Times(4, n) == Times(4, n - 1) + if n % 4 == 0 then 1 else 0
    ensures Times(100, n) == Times(100, n - 1) + if n % 100 == 0 then 1 else 0
    ensures Times(400, n) == Times(400, n - 1) + if n % 400 == 0 then 1 else 0
  {
    FoursNext(n);
    HundredsNext(n);
    FourHundredsNext(n);
    hide Times;
  }

  lemma {:induction false} FoursNext(n: int)
    ensures Times(4, n) == Times(4, n - 1) + if n % 4 == 0 then 1 else 0
  {}

  lemma {:induction false} HundredsNext(n: int)
    ensures Times(100, n) == Times(100, n - 1) + if n % 100 == 0 then 1 else 0
  {}

  lemma {:induction false} FourHundredsNext(n: int)
    ensures Times(400, n) == Times(400, n - 1) + if n % 400 == 0 then 1 else 0
  {}

  lemma {:induction false} LeapCases(year: int)
    ensures (if Leap(year) then 1 else 0) == (if year % 4 == 0 then 1 else 0) - (if year % 100 == 0 then 1 else 0)
      + (if year % 400 == 0 then 1 else 0)
  {
    OfHundred(year);
    OfFourHundred(year);
  }

  lemma {:induction false} OfHundred(n: int)
    ensures n % 100 == 0 ==> n % 4 == 0
  {
    var q := n / 100;
    if n == 100 * q { assert n == 4 * (25 * q); }
  }

  lemma {:induction false} OfFourHundred(n: int)
    ensures n % 400 == 0 ==> n % 100 == 0
  {
    var q := n / 400;
    if n == 400 * q { assert n == 100 * (4 * q); }
  }

  /** The days of the year before its month. */
  ghost function MonthStart(year: int, month: int): int
    requires 1 <= month <= 12
  {
    [0, 31, 59, 90, 120, 151, 181, 212, 243, 273, 304, 334][month - 1] + if month > 2 && Leap(year) then 1 else 0
  }

  /** The days from 1 January 1970 to a date of the Gregorian calendar. */
  ghost function DayNumber(d: Date): int
    requires ValidDate(d)
  {
    365 * (d.year - 1970) + LeapDays(d.year) - LeapDays(1970) + MonthStart(d.year, d.month) + d.day - 1
  }

  lemma {:induction false} LeapDaysNext(year: int)
    ensures LeapDays(year + 1) == LeapDays(year) + if Leap(year) then 1 else 0
  {
    TimesNext(year);
    LeapCases(year);
    hide Times, Leap;
  }

  lemma {:induction false} LeapDaysGrow(year: int, later: int)
    requires year <= later
    ensures LeapDays(year) <= LeapDays(later)
    decreases later - year
  {
    if year < later {
      LeapDaysNext(year);
      LeapDaysGrow(year + 1, later);
    }
  }

  lemma {:induction false} MonthStarts(year: int, month: int)
    requires 1 <= month <= 12
    ensures MonthStart(year, 1) == 0
    ensures month < 12 ==> MonthStart(year, month + 1) == MonthStart(year, month) + DaysIn(year, month)
    ensures month == 12 ==> MonthStart(year, month) + DaysIn(year, month) == 365 + if Leap(year) then 1 else 0
    ensures 0 <= MonthStart(year, month) && (MonthStart(year, month) == 0 ==> month == 1)
    ensures MonthStart(year, month) + DaysIn(year, month) <= 365 + if Leap(year) then 1 else 0
  {}

  lemma {:induction false} NumberAfter(d: Date)
    requires ValidDate(d)
    ensures DayNumber(DayAfter(d)) == DayNumber(d) + 1 && DayBefore(DayAfter(d)) == d
  {
    MonthStarts(d.year, d.month);
    MonthStarts(d.year + 1, 1);
    LeapDaysNext(d.year);
    hide LeapDays, MonthStart, Leap;
  }

  /** The n-th day's date is n days after 1 January 1970, counted by years and months. */
  lemma {:induction false} NumberOfDate(n: int)
    ensures DayNumber(DateOf(n)) == n
    decreases if n < 0 then -n else n
  {
    if n == 0 { assert DayNumber(DateOf(0)) == 0; }
    hide DateOf, DayNumber, DayAfter, DayBefore;
    if n > 0 {
      NumberOfDate(n - 1);
      DateFollows(n - 1);
      NumberAfter(DateOf(n - 1));
      assert n - 1 + 1 == n;
    } else if n < 0 {
      NumberOfDate(n + 1);
      DateFollows(n);
      NumberAfter(DateOf(n));
    }
  }

  lemma {:induction false} FirstDay(d: Date)
    requires ValidDate(d) && DayNumber(d) == 0
    ensures d == Date(1970, 1, 1)
  {
    MonthStarts(d.year, d.month);
    if d.year > 1970 { LeapDaysGrow(1970, d.year); }
    if d.year < 1970 {
      LeapDaysNext(d.year);
      LeapDaysGrow(d.year + 1, 1970);
    }
    hide LeapDays, MonthStart, Leap;
  }

  /** Every date of the calendar is that of its number. */
  lemma {:induction false} DateOfNumber(d: Date)
    requires ValidDate(d)
    ensures DateOf(DayNumber(d)) == d
    decreases if DayNumber(d) < 0 then -DayNumber(d) else DayNumber(d)
  {
    if DayNumber(d) == 0 {
      FirstDay(d);
    } else if DayNumber(d) > 0 {
      NumberAfter(DayBefore(d));
      DateOfNumber(DayBefore(d));
    } else {
      NumberAfter(d);
      DateOfNumber(DayAfter(d));
    }
    hide DayAfter, DayBefore;
  }

  function HourIndex(t: Time): int { t / HOUR }

  function HourOf(h: int): int { h % 24 }

  function DayOf(h: int): int { h / 24 }

  // ── Schedules ───────────────────────────────────────────────────────────────

  datatype Every = Off | Daily | Weekly | Monthly | Other

  datatype Schedule = Schedule(every: Every, weekday: int, day: int, hour: int)

  predicate Valid(s: Schedule) { !s.every.Other? && 0 <= s.hour <= 23 && 0 <= s.weekday <= 6 && 1 <= s.day <= 28 }

  /** The hour h, counted from the start of 1970, is a scheduled one. */
  predicate Matches(s: Schedule, h: int) {
    HourOf(h) == s.hour &&
    match s.every
    case Daily => true
    case Weekly => WeekdayOf(DayOf(h)) == s.weekday
    case Monthly => DateOf(DayOf(h)).day == s.day
    case _ => false
  }

  predicate SlotMatches(s: Schedule, t: Time) { Matches(s, HourIndex(t)) }

  /** The start of a scheduled hour. */
  predicate Slot(s: Schedule, t: Time) { t % HOUR == 0 && SlotMatches(s, t) }

  /** The days of a schedule: all, every seventh from its weekday's first, or the same day of
      each month. */
  ghost predicate OnDay(s: Schedule, n: int) {
    match s.every
    case Daily => true
    case Weekly => 0 <= s.weekday <= 6 && n % 7 == (s.weekday - 4) % 7
    case Monthly => exists year, month :: OfMonth(year, month, s.day) && n == DayNumber(Date(year, month, s.day))
    case _ => false
  }

  ghost predicate OfMonth(year: int, month: int, day: int) { ValidDate(Date(year, month, day)) }

  /** The slots: on a day of the schedule, its hour. */
  lemma {:induction false} SlotExactly(s: Schedule, t: Time)
    ensures Slot(s, t) <==> 0 <= s.hour <= 23 && exists n :: OnDay(s, n) && t == (24 * n + s.hour) * HOUR
  {
    if Slot(s, t) {
      var h := HourIndex(t);
      HourParts(h);
      HourStart(h, t);
      assert t == (24 * DayOf(h) + s.hour) * HOUR;
      DaysMatch(s, DayOf(h));
    }
    if n :| 0 <= s.hour <= 23 && OnDay(s, n) && t == (24 * n + s.hour) * HOUR {
      HourStart(24 * n + s.hour, t);
      HourAt(n, s.hour);
      DaysMatch(s, n);
    }
  }

  lemma {:induction false} DaysMatch(s: Schedule, n: int)
    ensures 0 <= s.hour <= 23 ==> (Matches(s, 24 * n + s.hour) <==> OnDay(s, n))
  {
    if 0 <= s.hour <= 23 { HourAt(n, s.hour); }
    if s.every.Monthly? {
      if DateOf(n).day == s.day {
        NumberOfDate(n);
        assert OfMonth(DateOf(n).year, DateOf(n).month, s.day);
      }
      if year, month :| OfMonth(year, month, s.day) && n == DayNumber(Date(year, month, s.day)) {
        DateOfNumber(Date(year, month, s.day));
      }
    }
  }

  // ── Every schedule has a slot within reach ──────────────────────────────────

  /** Some days back in the same month. */
  lemma {:induction false} SameMonthBack(n: int, k: nat)
    requires k < DateOf(n).day
    ensures DateOf(n - k) == DateOf(n).(day := DateOf(n).day - k)
  {
    if k > 0 {
      SameMonthBack(n, k - 1);
      DateFollows(n - k);
      hide DateOf;
      var d := DateOf(n - k + 1);
      assert DayAfter(DateOf(n - k)) == d && d.day > 1;
    }
  }

  lemma {:induction false} SameMonthOn(n: int, k: nat)
    requires DateOf(n).day + k <= DaysIn(DateOf(n).year, DateOf(n).month)
    ensures DateOf(n + k) == DateOf(n).(day := DateOf(n).day + k)
  {
    if k > 0 {
      SameMonthOn(n, k - 1);
      DateFollows(n + k - 1);
      assert n + k - 1 + 1 == n + k;
      hide DateOf;
    }
  }

  /** A day of the month up to 28 was at most 30 days ago. */
  lemma {:induction false} MonthDayBack(n: int, day: int) returns (k: nat)
    requires 1 <= day <= 28
    ensures k <= 30 && DateOf(n - k).day == day
  {
    hide DateOf, DaysIn;
    var d := DateOf(n);
    if d.day >= day {
      k := d.day - day;
      SameMonthBack(n, k);
    } else {
      SameMonthBack(n, d.day - 1);
      var m := n - d.day;
      DateFollows(m);
      assert m + 1 == n - (d.day - 1);
      var last := DateOf(m);
      assert DayAfter(last).day == 1;
      k := d.day + last.day - day;
      SameMonthBack(m, last.day - day);
      assert m - (last.day - day) == n - k;
    }
  }

  lemma {:induction false} MonthDayOn(n: int, day: int) returns (k: nat)
    requires 1 <= day <= 28
    ensures k <= 31 && DateOf(n + k).day == day
  {
    hide DateOf, DaysIn;
    var d := DateOf(n);
    if d.day <= day {
      k := day - d.day;
      SameMonthOn(n, k);
    } else {
      var left := DaysIn(d.year, d.month) - d.day;
      SameMonthOn(n, left);
      var m := n + left + 1;
      DateFollows(n + left);
      assert DateOf(m).day == 1;
      k := left + day;
      SameMonthOn(m, day - 1);
      assert m + (day - 1) == n + k;
    }
  }

  lemma {:induction false} HourAt(n: int, hour: int)
    requires 0 <= hour <= 23
    ensures HourOf(24 * n + hour) == hour && DayOf(24 * n + hour) == n
  {}

  lemma {:induction false} WeekdayBack(n: int, weekday: int) returns (j: nat)
    requires 0 <= weekday <= 6
    ensures j <= 6 && WeekdayOf(n - j) == weekday
  {
    j := (WeekdayOf(n) - weekday) % 7;
  }

  lemma {:induction false} WeekdayOn(n: int, weekday: int) returns (j: nat)
    requires 0 <= weekday <= 6
    ensures j <= 6 && WeekdayOf(n + j) == weekday
  {
    j := (weekday - WeekdayOf(n)) % 7;
  }

  lemma {:induction false} HourParts(h: int)
    ensures h == 24 * DayOf(h) + HourOf(h) && 0 <= HourOf(h) <= 23
  {}

  /** A scheduled hour at or before any hour, less than 62 days back. */
  lemma {:induction false} SlotBack(s: Schedule, h: int) returns (k: nat)
    requires Valid(s) && s.every != Off
    ensures k < SEARCH && Matches(s, h - k)
  {
    hide DateOf, WeekdayOf, HourOf, DayOf;
    HourParts(h);
    var n := if HourOf(h) >= s.hour then DayOf(h) else DayOf(h) - 1;
    var j: nat := 0;
    if s.every == Weekly { j := WeekdayBack(n, s.weekday); }
    if s.every == Monthly { j := MonthDayBack(n, s.day); }
    var g := 24 * (n - j) + s.hour;
    HourAt(n - j, s.hour);
    k := h - g;
    assert Matches(s, g);
  }

  lemma {:induction false} SlotOn(s: Schedule, h: int) returns (k: nat)
    requires Valid(s) && s.every != Off
    ensures k < SEARCH && Matches(s, h + k)
  {
    hide DateOf, WeekdayOf, HourOf, DayOf;
    HourParts(h);
    var n := if HourOf(h) <= s.hour then DayOf(h) else DayOf(h) + 1;
    var j: nat := 0;
    if s.every == Weekly { j := WeekdayOn(n, s.weekday); }
    if s.every == Monthly { j := MonthDayOn(n, s.day); }
    var g := 24 * (n + j) + s.hour;
    HourAt(n + j, s.hour);
    k := g - h;
    assert Matches(s, g);
  }

  // ── The searches ────────────────────────────────────────────────────────────

  lemma {:induction false} HourStart(h: int, t: Time)
    ensures (h * HOUR) % HOUR == 0 && HourIndex(h * HOUR) == h
    ensures h <= HourIndex(t) ==> h * HOUR <= t
    ensures h > HourIndex(t) ==> h * HOUR > t
    ensures t % HOUR == 0 ==> t == HourIndex(t) * HOUR
  {}

  /** No slot starts in the hours after lo up to hi, so none in between. */
  lemma {:induction false} NoSlotBetween(s: Schedule, lo: int, hi: int, t: Time)
    requires forall h :: lo < h <= hi ==> !Matches(s, h)
    ensures lo < HourIndex(t) <= hi ==> !Slot(s, t)
  {}

  /** lastSlot: the greatest slot at or before now; the search never runs out for a valid
      schedule other than off. */
  method LastSlot(s: Schedule, now: Time) returns (r: Option<Time>)
    ensures r.Some? ==> Slot(s, r.value) && r.value <= now && forall t :: r.value < t <= now ==> !Slot(s, t)
    ensures Valid(s) && s.every != Off ==> r.Some?
    ensures s.every == Off ==> r == None
  {
    hide Matches;
    var h := HourIndex(now);
    ghost var k: nat := 0;
    if Valid(s) && s.every != Off { k := SlotBack(s, HourIndex(now)); }
    for i := 0 to SEARCH
      invariant h == HourIndex(now) - i
      invariant forall k :: h < k <= HourIndex(now) ==> !Matches(s, k)
    {
      if Matches(s, h) {
        HourStart(h, now);
        forall t | h * HOUR < t <= now ensures !Slot(s, t) {
          HourStart(h, t);
          HourStart(HourIndex(t), t);
          NoSlotBetween(s, h, HourIndex(now), t);
        }
        OffNever(s, h);
        return Some(h * HOUR);
      }
      h := h - 1;
    }
    r := None;
  }

  lemma {:induction false} OffNever(s: Schedule, h: int)
    ensures s.every == Off ==> !Matches(s, h)
  {}

  /** nextRun: the least slot after from's hour. */
  method NextRun(s: Schedule, from: Time) returns (r: Option<Time>)
    ensures r.Some? ==> Slot(s, r.value) && r.value > from && forall t ::
      HourIndex(from) < HourIndex(t) && t < r.value ==> !Slot(s, t)
    ensures Valid(s) && s.every != Off ==> r.Some?
    ensures s.every == Off ==> r == None
  {
    hide Matches;
    if s.every == Off { return None; }
    var h := HourIndex(from) + 1;
    ghost var k: nat := 0;
    if Valid(s) { k := SlotOn(s, HourIndex(from) + 1); }
    for i := 0 to SEARCH
      invariant h == HourIndex(from) + 1 + i
      invariant forall k :: HourIndex(from) < k < h ==> !Matches(s, k)
    {
      if Matches(s, h) {
        HourStart(h, from);
        forall t | HourIndex(from) < HourIndex(t) && t < h * HOUR ensures !Slot(s, t) {
          HourStart(h, t);
          NoSlotBetween(s, HourIndex(from), h - 1, t);
        }
        return Some(h * HOUR);
      }
      h := h + 1;
    }
    r := None;
  }

  /** A slot started after the last run; before any run, now is in one. */
  ghost predicate Due(s: Schedule, now: Time, last: Option<Time>) {
    if last == None then SlotMatches(s, now) else exists t :: last.value < t <= now && Slot(s, t)
  }

  method IsDue(s: Schedule, now: Time, last: Option<Time>) returns (due: bool)
    ensures due ==> Due(s, now, last)
    ensures Valid(s) ==> (due <==> Due(s, now, last))
  {
    if s.every == Off { return false; }
    if last == None { return SlotMatches(s, now); }
    var slot := LastSlot(s, now);
    due := slot.Some? && last.value < slot.value;
  }

  /** The slot a run at now is for: the greatest one at or before it. */
  ghost predicate SlotOf(s: Schedule, now: Time, slot: Time) {
    Slot(s, slot) && slot <= now && forall t :: slot < t <= now ==> !Slot(s, t)
  }

  /** Every due run has its slot. */
  lemma {:induction false} DueHasSlot(s: Schedule, now: Time, last: Option<Time>) returns (slot: Time)
    requires Due(s, now, last)
    ensures SlotOf(s, now, slot) && (last.Some? ==> last.value < slot)
  {
    hide Matches;
    var t := if last == None then HourIndex(now) * HOUR else now;
    HourStart(HourIndex(now), now);
    if last.Some? { t :| last.value < t <= now && Slot(s, t); }
    slot := Greatest(s, t, now);
  }

  lemma {:induction false} Greatest(s: Schedule, t: Time, now: Time) returns (slot: Time)
    requires Slot(s, t) && t <= now
    ensures SlotOf(s, now, slot) && t <= slot
    decreases now - t
  {
    if u :| t < u <= now && Slot(s, u) { slot := Greatest(s, u, now); } else { slot := t; }
  }

  // ── The runs ────────────────────────────────────────────────────────────────

  datatype Task = SmartShort | SmartLong | RaidCheck

  datatype Status = Started | Skipped | Failed

  datatype TaskResult = TaskResult(status: Status, message: string)

  datatype Postponed = Postponed(at: Time, reason: string)

  datatype TaskState = TaskState(lastRun: Option<Time>, results: seq<TaskResult>, postponed: Option<Postponed>)

  type State = map<Task, TaskState>

  const TASKS: seq<Task> := [SmartShort, SmartLong, RaidCheck]

  function Get(state: State, task: Task): TaskState {
    if task in state then state[task] else TaskState(None, [], None)
  }

  /** Whether nothing started, with the first reason. */
  method AllSkipped(results: seq<TaskResult>) returns (reason: string, all: bool)
    ensures all <==> results != [] && forall r :: r in results ==> r.status.Skipped?
    ensures reason == if all then results[0].message else ""
  {
    if |results| == 0 { return "", false; }
    for i := 0 to |results|
      invariant forall k :: 0 <= k < i ==> results[k].status.Skipped?
    {
      if !results[i].status.Skipped? {
        assert results[i] in results;
        return "", false;
      }
    }
    return results[0].message, true;
  }

  /** One run of the tasks: what was stored before and after, what each task that was tried
      gave, and whether the last save worked. */
  datatype Visit = Visit(now: Time, only: Option<Task>, before: State, after: State,
    outcomes: map<Task, seq<TaskResult>>, saved: bool)

  /** A task that could only be skipped. */
  ghost predicate Skips(results: seq<TaskResult>) {
    results != [] && forall r :: r in results ==> r.status.Skipped?
  }

  /** What is kept of a task that was tried: its results as a run at now, or, when nothing
      could start, that it was postponed, and why. */
  ghost predicate Noted(now: Time, prev: TaskState, results: seq<TaskResult>, next: TaskState) {
    if Skips(results) then
      && next.lastRun == prev.lastRun && next.results == prev.results
      && next.postponed == Some(Postponed(now, results[0].message))
    else next.lastRun == Some(now) && next.results == results && next.postponed == None
  }

  ghost predicate Ran(v: Visit, t: Task) { t in v.outcomes && !Skips(v.outcomes[t]) }

  /** What a run may do: a due task is tried, or the one asked for, and no other; of those
      tried it stores what came of them, or nothing when saving failed. */
  ghost predicate Proper(schedule: map<Task, Schedule>, v: Visit) {
    && (forall t: Task :: t in schedule)
    && (forall t: Task :: t in v.outcomes <==>
      if v.only == None then Due(schedule[t], v.now, Get(v.before, t).lastRun) else v.only == Some(t))
    && (forall t: Task ::
      Get(v.after, t) == Get(v.before, t) ||
      (t in v.outcomes && Noted(v.now, Get(v.before, t), v.outcomes[t], Get(v.after, t))))
    && (v.saved ==> forall t :: t in v.outcomes ==>
      Noted(v.now, Get(v.before, t), v.outcomes[t], Get(v.after, t)))
  }

  /** Runs one after the other, each from what the one before left. */
  ghost predicate Chain(schedule: map<Task, Schedule>, visits: seq<Visit>, stored: State) {
    && (forall i :: 0 <= i < |visits| ==> Proper(schedule, visits[i]))
    && (forall i :: 0 < i < |visits| ==> visits[i].before == visits[i - 1].after && visits[i - 1].now <= visits[i].now)
    && (visits != [] ==> visits[|visits| - 1].after == stored)
  }

  ghost predicate Wanted(schedule: map<Task, Schedule>, now: Time, only: Option<Task>, before: State, t: Task)
    requires t in schedule
  {
    if only == None then Due(schedule[t], now, Get(before, t).lastRun) else only == Some(t)
  }

  /** Of the tasks before i, those wanted were tried. */
  ghost predicate GoneThrough(schedule: map<Task, Schedule>, now: Time, only: Option<Task>, i: nat, before: State,
      outcomes: map<Task, seq<TaskResult>>) {
    && i <= |TASKS| && (forall t: Task :: t in schedule)
    && (forall t :: t in outcomes <==> t in TASKS[..i] && Wanted(schedule, now, only, before, t))
  }

  /** state is what this run knows, and stored what the saves that worked wrote. */
  ghost predicate Keeping(now: Time, before: State, state: State, stored: State,
      outcomes: map<Task, seq<TaskResult>>, saved: bool) {
    && (forall t: Task :: if t in outcomes then Noted(now, Get(before, t), outcomes[t], Get(state, t))
      else Get(state, t) == Get(before, t))
    && (forall t: Task :: Get(stored, t) == Get(before, t) || (t in outcomes && Get(stored, t) == Get(state, t)))
    && (saved ==> forall t: Task :: Get(stored, t) == Get(state, t))
  }

  lemma {:induction false} GoingSkip(schedule: map<Task, Schedule>, now: Time, only: Option<Task>, i: nat,
      before: State, outcomes: map<Task, seq<TaskResult>>)
    requires GoneThrough(schedule, now, only, i, before, outcomes) && i < |TASKS|
      && !Wanted(schedule, now, only, before, TASKS[i])
    ensures GoneThrough(schedule, now, only, i + 1, before, outcomes)
  {
    hide Wanted;
    OnlyOnce(i);
  }

  lemma {:induction false} GoingTry(schedule: map<Task, Schedule>, now: Time, only: Option<Task>, i: nat,
      before: State, outcomes: map<Task, seq<TaskResult>>, results: seq<TaskResult>)
    requires GoneThrough(schedule, now, only, i, before, outcomes) && i < |TASKS|
      && Wanted(schedule, now, only, before, TASKS[i])
    ensures GoneThrough(schedule, now, only, i + 1, before, outcomes[TASKS[i] := results])
  {
    OnlyOnce(i);
    assert forall t :: t in TASKS[..i + 1] <==> t in TASKS[..i] || t == TASKS[i];
    hide Wanted, TASKS;
  }

  lemma {:induction false} KeepingLast(schedule: map<Task, Schedule>, now: Time, only: Option<Task>, i: nat,
      before: State, state: State, stored: State, outcomes: map<Task, seq<TaskResult>>, saved: bool)
    requires GoneThrough(schedule, now, only, i, before, outcomes) && i < |TASKS|
      && Keeping(now, before, state, stored, outcomes, saved)
    ensures TASKS[i] in schedule && TASKS[i] !in outcomes && Get(state, TASKS[i]) == Get(before, TASKS[i])
  {
    hide Wanted;
    OnlyOnce(i);
  }

  lemma {:induction false} GetSet(state: State, task: Task, next: TaskState)
    ensures forall t: Task :: Get(state[task := next], t) == if t == task then next else Get(state, t)
  {
    forall t: Task ensures Get(state[task := next], t) == if t == task then next else Get(state, t) {}
  }

  lemma {:induction false} KeepingNext(now: Time, before: State, state: State, stored: State,
      outcomes: map<Task, seq<TaskResult>>, saved: bool, task: Task, next: TaskState, results: seq<TaskResult>,
      written: bool)
    requires Keeping(now, before, state, stored, outcomes, saved) && task !in outcomes
    requires Noted(now, Get(before, task), results, next)
    ensures var state' := state[task := next];
      Keeping(now, before, state', if written then state' else stored, outcomes[task := results], written)
  {
    GetSet(state, task, next);
    hide Get, Noted;
    var state', outcomes' := state[task := next], outcomes[task := results];
    forall t: Task
      ensures if t in outcomes' then Noted(now, Get(before, t), outcomes'[t], Get(state', t))
        else Get(state', t) == Get(before, t)
    {
      assert Get(state', t) == if t == task then next else Get(state, t);
    }
  }

  lemma {:induction false} GoingStart(schedule: map<Task, Schedule>, now: Time, only: Option<Task>, stored: State)
    requires forall t: Task :: t in schedule
    ensures GoneThrough(schedule, now, only, 0, stored, map[]) && Keeping(now, stored, stored, stored, map[], true)
  {}

  lemma {:induction false} ChainMore(schedule: map<Task, Schedule>, visits: seq<Visit>, now: Time, only: Option<Task>,
      before: State, state: State, stored: State, outcomes: map<Task, seq<TaskResult>>, saved: bool)
    requires Chain(schedule, visits, before) && (visits != [] ==> visits[|visits| - 1].now <= now)
    requires GoneThrough(schedule, now, only, |TASKS|, before, outcomes)
      && Keeping(now, before, state, stored, outcomes, saved)
    ensures Chain(schedule, visits + [Visit(now, only, before, stored, outcomes, saved)], stored)
  {
    hide *;
    GoingProper(schedule, now, only, before, state, stored, outcomes, saved);
    ChainPush(schedule, visits, Visit(now, only, before, stored, outcomes, saved));
  }

  lemma {:induction false} ChainPush(schedule: map<Task, Schedule>, visits: seq<Visit>, v: Visit)
    requires Chain(schedule, visits, v.before) && Proper(schedule, v)
      && (visits != [] ==> visits[|visits| - 1].now <= v.now)
    ensures Chain(schedule, visits + [v], v.after)
  {
    hide Proper;
    var all := visits + [v];
    assert forall i :: 0 <= i < |visits| ==> all[i] == visits[i];
    assert all[|visits|] == v;
  }

  lemma {:induction false} GoingProper(schedule: map<Task, Schedule>, now: Time, only: Option<Task>, before: State,
      state: State, stored: State, outcomes: map<Task, seq<TaskResult>>, saved: bool)
    requires GoneThrough(schedule, now, only, |TASKS|, before, outcomes)
      && Keeping(now, before, state, stored, outcomes, saved)
    ensures Proper(schedule, Visit(now, only, before, stored, outcomes, saved))
  {
    EveryTask();
    hide Due, Get, TASKS, Noted;
  }

  class Maintainer {
    /** The state file. */
    var stored: State
    ghost var visits: seq<Visit>
    /** What the tasks of this run gave. */
    ghost var outcomes: map<Task, seq<TaskResult>>
    const schedule: map<Task, Schedule>

    constructor (schedule: map<Task, Schedule>)
      requires forall t: Task :: t in schedule && Valid(schedule[t])
      ensures Chained() && visits == [] && this.schedule == schedule
    {
      stored, visits, outcomes := map[], [], map[];
      this.schedule := schedule;
    }

    ghost predicate Chained()
      reads this
    {
      (forall t: Task :: t in schedule && Valid(schedule[t])) && Chain(schedule, visits, stored)
    }

    /** runMaintenance: by the timer, or for one task asked for. */
    method RunMaintenance(now: Time, only: Option<Task>) returns (ok: bool)
      requires Chained() && (visits != [] ==> visits[|visits| - 1].now <= now)
      modifies this
      ensures Chained()
      ensures !ok ==> visits == old(visits) && stored == old(stored)
      ensures ok ==> |visits| == |old(visits)| + 1 && visits[..|old(visits)|] == old(visits)
      ensures ok ==>
        var v := visits[|old(visits)|];
        v.now == now && v.only == only && v.before == old(stored) && v.after == stored
    {
      hide Due, GoneThrough, Keeping, Get, Chain, Wanted, Noted;
      var locked: bool := *;
      if !locked { return false; }
      ghost var saved := true;
      ghost var before := stored;
      var state := stored;
      outcomes := map[];
      GoingStart(schedule, now, only, stored);
      for i := 0 to |TASKS|
        invariant visits == old(visits) && (forall t: Task :: t in schedule && Valid(schedule[t]))
        invariant GoneThrough(schedule, now, only, i, before, outcomes)
        invariant Keeping(now, before, state, stored, outcomes, saved)
      {
        var task := TASKS[i];
        KeepingLast(schedule, now, only, i, before, state, stored, outcomes, saved);
        WantedIs(schedule, now, only, before, task);
        if only != None && task != only.value {
          GoingSkip(schedule, now, only, i, before, outcomes);
          continue;
        }
        var prev := Get(state, task);
        if only == None {
          var due := IsDue(schedule[task], now, prev.lastRun);
          if !due {
            GoingSkip(schedule, now, only, i, before, outcomes);
            continue;
          }
        }
        ghost var given := outcomes;
        var results := RunTask(task);
        GoingTry(schedule, now, only, i, before, given, results);
        var next := Note(now, prev, results);
        var written: bool := *;
        KeepingNext(now, before, state, stored, given, saved, task, next, results, written);
        state, saved := state[task := next], written;
        if written { stored := state; }
      }
      ChainMore(schedule, visits, now, only, before, state, stored, outcomes, saved);
      visits := visits + [Visit(now, only, before, stored, outcomes, saved)];
      ok := true;
    }

    /** runMaintenanceTask. */
    method RunTask(task: Task) returns (results: seq<TaskResult>)
      modifies this`outcomes
      ensures outcomes == old(outcomes)[task := results]
    {
      results := *;
      outcomes := outcomes[task := results];
    }
  }

  /** What a task's results make of its state. */
  method Note(now: Time, prev: TaskState, results: seq<TaskResult>) returns (next: TaskState)
    ensures Noted(now, prev, results, next)
  {
    var reason, all := AllSkipped(results);
    next := if all then TaskState(prev.lastRun, prev.results, Some(Postponed(now, reason)))
      else TaskState(Some(now), results, None);
  }

  lemma {:induction false} WantedIs(schedule: map<Task, Schedule>, now: Time, only: Option<Task>, before: State,
      t: Task)
    requires t in schedule
    ensures Wanted(schedule, now, only, before, t) <==>
      if only == None then Due(schedule[t], now, Get(before, t).lastRun) else only.value == t
  {}

  lemma {:induction false} OnlyOnce(i: nat)
    requires i < |TASKS|
    ensures TASKS[..i + 1] == TASKS[..i] + [TASKS[i]] && TASKS[i] !in TASKS[..i]
  {}

  lemma {:induction false} EveryTask()
    ensures TASKS[..|TASKS|] == TASKS && forall t: Task :: t in TASKS
  {
    forall t: Task ensures t in TASKS {
      match t
      case SmartShort => assert TASKS[0] == t;
      case SmartLong => assert TASKS[1] == t;
      case RaidCheck => assert TASKS[2] == t;
    }
  }

  // ── Every sequence of runs ──────────────────────────────────────────────────

  lemma {:induction false} LastRunAfter(schedule: map<Task, Schedule>, v: Visit, t: Task)
    requires Proper(schedule, v)
    ensures Get(v.after, t).lastRun == Get(v.before, t).lastRun
      || (Ran(v, t) && Get(v.after, t).lastRun == Some(v.now))
    ensures Ran(v, t) && v.saved ==> Get(v.after, t).lastRun == Some(v.now)
  {
    hide Due, Get, Skips;
  }

  /** The last run only moves forward, and not past the clock. */
  lemma {:induction false} LastRunGrows(schedule: map<Task, Schedule>, visits: seq<Visit>, stored: State, t: Task,
      i: nat, j: nat)
    requires Chain(schedule, visits, stored) && i < j < |visits|
      && Get(visits[i].after, t).lastRun == Some(visits[i].now)
    ensures Get(visits[j].before, t).lastRun.Some? && visits[i].now <= Get(visits[j].before, t).lastRun.value
    ensures visits[i].now <= visits[j].now
  {
    hide Due, Proper;
    assert visits[j].before == visits[j - 1].after && visits[j - 1].now <= visits[j].now;
    if j > i + 1 {
      LastRunGrows(schedule, visits, stored, t, i, j - 1);
      LastRunAfter(schedule, visits[j - 1], t);
    }
  }

  /** A run of a task that was recorded, then one by the timer: they are for different
      slots, the later for a later one. */
  lemma {:induction false} SlotsAreServedOnce(schedule: map<Task, Schedule>, visits: seq<Visit>, stored: State,
      t: Task, i: nat, j: nat, slot: Time, slot': Time)
    requires Chain(schedule, visits, stored) && i < j < |visits| && t in schedule
    requires Ran(visits[i], t) && (visits[i].saved || Get(visits[i].after, t).lastRun == Some(visits[i].now))
    requires t in visits[j].outcomes && visits[j].only == None
    requires SlotOf(schedule[t], visits[i].now, slot) && SlotOf(schedule[t], visits[j].now, slot')
    ensures slot < slot'
  {
    LastRunAfter(schedule, visits[i], t);
    assert Proper(schedule, visits[j]);
    hide Noted;
    LastRunGrows(schedule, visits, stored, t, i, j);
    var last := Get(visits[j].before, t).lastRun;
    hide Slot;
    var u :| last.value < u <= visits[j].now && Slot(schedule[t], u);
  }

  /** A slot after the last run, missed or postponed, is due at every later run by the
      timer until one starts something. */
  lemma {:induction false} MissedSlotStaysDue(schedule: map<Task, Schedule>, visits: seq<Visit>, stored: State,
      t: Task, i: nat, j: nat, slot: Time)
    requires Chain(schedule, visits, stored) && i <= j < |visits| && t in schedule
    requires Get(visits[i].before, t).lastRun.Some? && Get(visits[i].before, t).lastRun.value < slot <= visits[i].now
      && Slot(schedule[t], slot)
    requires forall k :: i <= k < j ==> !Ran(visits[k], t)
    ensures Get(visits[j].before, t).lastRun == Get(visits[i].before, t).lastRun && slot <= visits[j].now
    ensures Due(schedule[t], visits[j].now, Get(visits[j].before, t).lastRun)
    ensures visits[j].only == None ==> t in visits[j].outcomes
  {
    hide Slot;
    if j > i {
      MissedSlotStaysDue(schedule, visits, stored, t, i, j - 1, slot);
      LastRunAfter(schedule, visits[j - 1], t);
      assert visits[j].before == visits[j - 1].after && visits[j - 1].now <= visits[j].now;
    }
    hide Noted;
    assert Proper(schedule, visits[j]);
  }

  /** A task is never tried by the timer without a slot that started since its last run. */
  lemma {:induction false} TriedForASlot(schedule: map<Task, Schedule>, v: Visit, t: Task) returns (slot: Time)
    requires Proper(schedule, v) && v.only == None && t in v.outcomes
    ensures SlotOf(schedule[t], v.now, slot)
      && (Get(v.before, t).lastRun.Some? ==> Get(v.before, t).lastRun.value < slot)
  {
    slot := DueHasSlot(schedule[t], v.now, Get(v.before, t).lastRun);
  }
}
