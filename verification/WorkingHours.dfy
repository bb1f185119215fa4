/**
 The working-hours calculator: a loop that measures the working time between
 two timestamps, and one that looks back for the moment a given amount ago.
 */
module WorkingHours {
  import opened Calendar

  const DAY := 86400
  const IST_OFFSET := 19800
  const WORK_START := 9 * 3600
  const WORK_END := 19 * 3600
  const SUNDAY := 6

  const HOLIDAYS_2026: set<(int, int)> := {
    (1, 26), (3, 14), (3, 31), (4, 6), (4, 10), (4, 14), (5, 1), (5, 12), (6, 7), (7, 6),
    (8, 15), (9, 5), (10, 2), (10, 12), (10, 20), (11, 1), (11, 15), (12, 25),
    (1, 14), (1, 15), (4, 15), (4, 16), (10, 24), (11, 2)
  }

  // ---- Days ----

  /** Python's weekday(): Monday is 0; day 0 was a Thursday. */
  function Weekday(day: int): int {
    (day + 3) % 7
  }

  predicate IsHoliday(d: Date) {
    (d.month, d.day) in HOLIDAYS_2026
  }

  predicate IsWorkingDay(day: int) {
    Weekday(day) != SUNDAY && !IsHoliday(DateOf(day))
  }

  function LocalDay(t: int): int {
    (t + IST_OFFSET) / DAY
  }

  function LocalSecond(t: int): int {
    (t + IST_OFFSET) % DAY
  }

  /** The timestamp of local midnight at the start of `day`. */
  function DayStart(day: int): int {
    day * DAY - IST_OFFSET
  }

  lemma {:induction false} LocalDayIs(t: int, day: int)
    ensures LocalDay(t) == day <==> DayStart(day) <= t < DayStart(day + 1)
    ensures LocalDay(t) == day ==> LocalSecond(t) == t - DayStart(day)
  {
    var s := t + IST_OFFSET;
    assert s == DAY * (s / DAY) + s % DAY;
  }

  // ---- Working seconds ----

  // Both loops are given their meaning second by second.  Timestamps are whole
  // seconds since 1970; local time is the fixed offset +5:30.

  /** The second that starts at t lies in a working slot. */
  predicate Working(t: int) {
    IsWorkingDay(LocalDay(t)) && WORK_START <= LocalSecond(t) < WORK_END
  }

  /** The number of working seconds in [a, b). */
  function WorkSeconds(a: int, b: int): nat
    decreases b - a
  {
    if b <= a then 0 else WorkSeconds(a, b - 1) + if Working(b - 1) then 1 else 0
  }

  lemma {:induction false} WorkSecondsAdditive(a: int, m: int, b: int)
    requires a <= m <= b
    ensures WorkSeconds(a, b) == WorkSeconds(a, m) + WorkSeconds(m, b)
    decreases b - m
  {
    if m < b {
      WorkSecondsAdditive(a, m, b - 1);
    }
  }

  lemma {:induction false} WorkSecondsBounded(a: int, b: int)
    requires a <= b
    ensures WorkSeconds(a, b) <= b - a
    decreases b - a
  {
    if a < b {
      WorkSecondsBounded(a, b - 1);
    }
  }

  lemma {:induction false} WorkSecondsMonotone(a: int, c: int, d: int, b: int)
    requires a <= c <= d <= b
    ensures WorkSeconds(c, d) <= WorkSeconds(a, b)
  {
    WorkSecondsAdditive(a, c, b);
    WorkSecondsAdditive(c, d, b);
  }

  function Max(a: int, b: int): int { if a < b then b else a }

  function Min(a: int, b: int): int { if a < b then a else b }

  /** Within one local day the working seconds are the overlap with 9:00-19:00. */
  function Overlap(day: int, a: int, b: int): int {
    if IsWorkingDay(day) then
      Max(0, Min(DayStart(day) + WORK_END, b) - Max(DayStart(day) + WORK_START, a))
    else
      0
  }

  lemma {:induction false} WorkSecondsInDay(day: int, a: int, b: int)
    requires DayStart(day) <= a <= b <= DayStart(day + 1)
    ensures WorkSeconds(a, b) == Overlap(day, a, b)
    decreases b - a
  {
    if a < b {
      WorkSecondsInDay(day, a, b - 1);
      LocalDayIs(b - 1, day);
    }
  }

  /** The holidays, month by month. */
  predicate HolidayByMonth(month: int, day: int) {
    match month
    case 1 => 14 <= day <= 15 || day == 26
    case 3 => day == 14 || day == 31
    case 4 => day == 6 || day == 10 || 14 <= day <= 16
    case 5 => day == 1 || day == 12
    case 6 => day == 7
    case 7 => day == 6
    case 8 => day == 15
    case 9 => day == 5
    case 10 => day == 2 || day == 12 || day == 20 || day == 24
    case 11 => 1 <= day <= 2 || day == 15
    case 12 => day == 25
    case _ => false
  }

  lemma {:induction false} HolidaysByMonth(month: int, day: int)
    ensures (month, day) in HOLIDAYS_2026 <==> HolidayByMonth(month, day)
  {
  }

  predicate DayOff(day: int) {
    day % 7 == 3 || HolidayByMonth(DateOf(day).month, DateOf(day).day)
  }

  lemma {:induction false} DaysOff(day: int)
    ensures IsWorkingDay(day) <==> !DayOff(day)
  {
    HolidaysByMonth(DateOf(day).month, DateOf(day).day);
    assert Weekday(day) == 6 <==> day % 7 == 3;
  }

  /**
   What the measure counts, in numbers.  A local day starts 19800 s before a
   multiple of 86400; its slot lasts from 32400 s to 68400 s after that, unless
   the day is off.
   */
  lemma {:induction false} DayIsMeasured(day: int, a: int, b: int)
    requires day * 86400 - 19800 <= a <= b <= day * 86400 + 66600
    ensures WorkSeconds(a, b) ==
      if DayOff(day) then 0
      else
        var from, to := day * 86400 + 12600, day * 86400 + 48600;
        if b <= from || to <= a then 0 else (if b < to then b else to) - (if a < from then from else a)
  {
    DaysOff(day);
    WorkSecondsInDay(day, a, b);
  }

  // ---- The forward measure ----

  /** What one local day adds, between the moments dt1 and dt2. */
  lemma {:induction false} DayAdds(dt1: int, dt2: int, current: int, day: int)
    requires dt1 <= current <= dt2 && LocalDay(current) == day && current == Max(dt1, DayStart(day))
    ensures WorkSeconds(dt1, Min(DayStart(day + 1), dt2))
         == WorkSeconds(dt1, current)
            + if IsWorkingDay(day) then Max(0, Min(DayStart(day) + WORK_END, dt2) - Max(DayStart(day) + WORK_START, dt1)) else 0
  {
    var next := Min(DayStart(day + 1), dt2);
    LocalDayIs(current, day);
    WorkSecondsInDay(day, current, next);
    WorkSecondsAdditive(dt1, current, next);
  }

  lemma {:induction false} MinutesAdd(a: int, b: int)
    ensures a as real / 60.0 + b as real / 60.0 == (a + b) as real / 60.0
  {
  }

  /** Working hours between two timestamps, given in either order. */
  method WorkingHoursBetween(ts1: int, ts2: int) returns (hours: real)
    ensures hours == WorkSeconds(Min(ts1, ts2), Max(ts1, ts2)) as real / 3600.0
  {
    var dt1, dt2 := ts1, ts2;
    if ts1 > ts2 {
      dt1, dt2 := ts2, ts1;
    }
    var totalMinutes := 0.0;
    var current := dt1;
    LocalDayIs(dt1, LocalDay(dt1));
    LocalDayIs(dt2, LocalDay(dt2));
    while LocalDay(current) <= LocalDay(dt2)
      invariant LocalDay(dt1) <= LocalDay(current) <= LocalDay(dt2) + 1
      invariant current == Max(dt1, DayStart(LocalDay(current)))
      invariant totalMinutes == WorkSeconds(dt1, Min(current, dt2)) as real / 60.0
      decreases LocalDay(dt2) - LocalDay(current)
    {
      ghost var day := LocalDay(current);
      assert current <= dt2 by {
        LocalDayIs(dt2, LocalDay(dt2));
      }
      DayAdds(dt1, dt2, current, day);
      if IsWorkingDay(LocalDay(current)) {
        var dayStart := DayStart(LocalDay(current)) + WORK_START;
        var dayEnd := DayStart(LocalDay(current)) + WORK_END;
        var effectiveStart := Max(dayStart, dt1);
        var effectiveEnd := Min(dayEnd, dt2);
        if effectiveStart < effectiveEnd {
          var minutes := (effectiveEnd - effectiveStart) as real / 60.0;
          MinutesAdd(WorkSeconds(dt1, current), effectiveEnd - effectiveStart);
          totalMinutes := totalMinutes + minutes;
        }
      }
      current := DayStart(LocalDay(current) + 1);
      LocalDayIs(current, day + 1);
    }
    assert Min(current, dt2) == dt2 by {
      LocalDayIs(dt2, LocalDay(dt2));
    }
    hours := totalMinutes / 60.0;
  }

  // ---- No five days off in a row ----

  /** Three holidays in a row are exactly 14 to 16 April. */
  lemma {:induction false} HolidayRun(d: Date)
    requires IsDate(d)
    ensures IsHoliday(d) && IsHoliday(NextDate(d)) && IsHoliday(NextDate(NextDate(d))) <==> StartsRun(d)
  {
  }

  ghost predicate StartsRun(d: Date) {
    d.month == 4 && d.day == 14
  }

  /** A day off between holidays never lengthens a run of two: no holiday lies two days before or after it. */
  lemma {:induction false} HolidayGap(d: Date)
    requires IsDate(d)
    ensures !(IsHoliday(d) && IsHoliday(NextDate(d)) && IsHoliday(NextDate(NextDate(NextDate(d)))))
    ensures !(IsHoliday(d) && IsHoliday(NextDate(NextDate(d))) && IsHoliday(NextDate(NextDate(NextDate(d)))))
  {
  }

  lemma {:induction false} WeekdayLater(day: int, k: nat)
    ensures Weekday(day + k) == (Weekday(day) + k) % 7
  {
    var week := (day + 3) / 7;
    assert day + 3 == 7 * week + Weekday(day);
    assert day + k + 3 == 7 * week + (Weekday(day) + k);
  }

  /** Days off by weekday and holiday. */
  lemma {:induction false} WorkingDayLater(day: int, k: nat)
    ensures IsWorkingDay(day + k) <==> (Weekday(day) + k) % 7 != SUNDAY && !IsHoliday(DateOf(day + k))
  {
    WeekdayLater(day, k);
  }

  /** The first working day among `day`, `day` + 1, ... lies at most four days on. */
  lemma {:induction false} FiveDaysHoldAWorkingDay(day: int)
    ensures IsWorkingDay(day) || IsWorkingDay(day + 1) || IsWorkingDay(day + 2)
         || IsWorkingDay(day + 3) || IsWorkingDay(day + 4)
  {
    var d0, d1, d2, d3, d4 := DateOf(day), DateOf(day + 1), DateOf(day + 2), DateOf(day + 3), DateOf(day + 4);
    GapsFrom(day);
    GapsFrom(day + 1);
    WorkingDayLater(day, 1);
    WorkingDayLater(day, 2);
    WorkingDayLater(day, 3);
    WorkingDayLater(day, 4);
    NotAllOff(Weekday(day), IsHoliday(d0), IsHoliday(d1), IsHoliday(d2), IsHoliday(d3), IsHoliday(d4));
  }

  lemma {:induction false} GapsFrom(day: int)
    ensures !(IsHoliday(DateOf(day)) && IsHoliday(DateOf(day + 1)) && IsHoliday(DateOf(day + 3)))
    ensures !(IsHoliday(DateOf(day)) && IsHoliday(DateOf(day + 2)) && IsHoliday(DateOf(day + 3)))
  {
    DateOfSuccessor(day);
    DateOfSuccessor(day + 1);
    DateOfSuccessor(day + 2);
    HolidayGap(DateOf(day));
  }

  lemma {:induction false} RunFrom(day: int)
    ensures IsHoliday(DateOf(day)) && IsHoliday(DateOf(day + 1)) && IsHoliday(DateOf(day + 2)) <==> StartsRun(DateOf(day))
  {
    DateOfSuccessor(day);
    DateOfSuccessor(day + 1);
    HolidayRun(DateOf(day));
  }

  /** One Sunday cannot close the gaps that five days leave between their holidays. */
  lemma {:induction false} NotAllOff(weekday: int, h0: bool, h1: bool, h2: bool, h3: bool, h4: bool)
    requires 0 <= weekday < 7
    requires !(h0 && h1 && h3) && !(h0 && h2 && h3) && !(h1 && h2 && h4) && !(h1 && h3 && h4)
    ensures !( && (weekday == SUNDAY || h0) && ((weekday + 1) % 7 == SUNDAY || h1) && ((weekday + 2) % 7 == SUNDAY || h2)
               && ((weekday + 3) % 7 == SUNDAY || h3) && ((weekday + 4) % 7 == SUNDAY || h4))
  {
  }

  lemma {:induction false} FourOff(weekday: int, h0: bool, h1: bool, h2: bool, h3: bool)
    requires 0 <= weekday < 7 && !(h0 && h1 && h3) && !(h0 && h2 && h3)
    ensures (&& (weekday == SUNDAY || h0) && ((weekday + 1) % 7 == SUNDAY || h1)
             && ((weekday + 2) % 7 == SUNDAY || h2) && ((weekday + 3) % 7 == SUNDAY || h3)) <==>
      (h0 && h1 && h2 && (weekday + 3) % 7 == SUNDAY) || (weekday == SUNDAY && h1 && h2 && h3)
  {
  }

  /** Four days off in a row are 14 to 16 April with a Sunday right after or before them, and nothing else. */
  lemma {:induction false} FourDaysOff(day: int)
    ensures !(IsWorkingDay(day) || IsWorkingDay(day + 1) || IsWorkingDay(day + 2) || IsWorkingDay(day + 3)) <==>
      (StartsRun(DateOf(day)) && Weekday(day + 3) == SUNDAY) || (Weekday(day) == SUNDAY && StartsRun(DateOf(day + 1)))
  {
    var d0, d1, d2, d3 := DateOf(day), DateOf(day + 1), DateOf(day + 2), DateOf(day + 3);
    GapsFrom(day);
    RunFrom(day);
    RunFrom(day + 1);
    WeekdayLater(day, 3);
    WorkingDayLater(day, 1);
    WorkingDayLater(day, 2);
    WorkingDayLater(day, 3);
    FourOff(Weekday(day), IsHoliday(d0), IsHoliday(d1), IsHoliday(d2), IsHoliday(d3));
  }

  lemma {:induction false} OffFrom(d: Date)
    requires IsDate(d) && StartsRun(d) && Weekday(DayNumber(d) + 3) == SUNDAY
    ensures forall k :: DayNumber(d) <= k < DayNumber(d) + 4 ==> !IsWorkingDay(k)
  {
    var day := DayNumber(d);
    DateOfDayNumber(d);
    FourDaysOff(day);
    forall k | day <= k < day + 4
      ensures !IsWorkingDay(k)
    {
      assert k == day || k == day + 1 || k == day + 2 || k == day + 3;
    }
  }

  lemma {:induction false} SundayAfterRun()
    ensures Weekday(DayNumber(Date(2022, 4, 14)) + 3) == SUNDAY
  {
    assert DaysBeforeMonth(2022, 2) == 31;
    assert DaysBeforeMonth(2022, 4) == 90;
  }

  /** It happens: 14 to 17 April 2022. */
  lemma {:induction false} FourDaysOffIn2022()
    ensures var day := DayNumber(Date(2022, 4, 14)); forall k :: day <= k < day + 4 ==> !IsWorkingDay(k)
  {
    SundayAfterRun();
    OffFrom(Date(2022, 4, 14));
  }

  // ---- The backward search ----

  /** How many days before `day` (or on it) the nearest working day lies. */
  function DaysBack(day: int): int {
    if IsWorkingDay(day) then 0
    else if IsWorkingDay(day - 1) then 1
    else if IsWorkingDay(day - 2) then 2
    else if IsWorkingDay(day - 3) then 3
    else 4
  }

  lemma {:induction false} DaysBackDecreases(day: int)
    requires !IsWorkingDay(day)
    ensures DaysBack(day - 1) < DaysBack(day)
  {
    FiveDaysHoldAWorkingDay(day - 4);
  }

  /** t is the latest moment, not after ts, with at least n working seconds up to ts. */
  ghost predicate IsLatest(t: int, ts: int, n: nat) {
    && t <= ts
    && n <= WorkSeconds(t, ts)
    && forall u :: t < u <= ts ==> WorkSeconds(u, ts) < n
  }

  lemma {:induction false} LatestAtWorkingSecond(t: int, ts: int)
    requires t < ts && Working(t)
    ensures IsLatest(t, ts, WorkSeconds(t, ts))
  {
    assert WorkSeconds(t + 1, ts) + 1 == WorkSeconds(t, ts) by {
      WorkSecondsAdditive(t, t + 1, ts);
      assert WorkSeconds(t, t) == 0;
    }
    forall u | t < u <= ts
      ensures WorkSeconds(u, ts) < WorkSeconds(t, ts)
    {
      WorkSecondsMonotone(t + 1, u, ts, ts);
    }
  }

  lemma {:induction false} WeekHoldsWork(b: int)
    ensures 1 <= WorkSeconds(b - 6 * DAY, b)
  {
    var a := b - 6 * DAY;
    var day := LocalDay(a);
    LocalDayIs(a, day);
    FiveDaysHoldAWorkingDay(day + 1);
    var w := if IsWorkingDay(day + 1) then day + 1
             else if IsWorkingDay(day + 2) then day + 2
             else if IsWorkingDay(day + 3) then day + 3
             else if IsWorkingDay(day + 4) then day + 4
             else day + 5;
    WorkSecondsInDay(w, DayStart(w), DayStart(w + 1));
    WorkSecondsMonotone(a, DayStart(w), DayStart(w + 1), b);
  }

  lemma {:induction false} EnoughWorkBefore(ts: int, n: nat)
    ensures n <= WorkSeconds(ts - 6 * DAY * n, ts)
  {
    if 0 < n {
      EnoughWorkBefore(ts, n - 1);
      WeekHoldsWork(ts - 6 * DAY * (n - 1));
      WorkSecondsAdditive(ts - 6 * DAY * n, ts - 6 * DAY * (n - 1), ts);
    }
  }

  lemma {:induction false} FindLatest(lo: int, ts: int, n: nat) returns (t: int)
    requires lo <= ts && n <= WorkSeconds(lo, ts)
    ensures IsLatest(t, ts, n)
    decreases ts - lo
  {
    if lo == ts || WorkSeconds(lo + 1, ts) < n {
      t := lo;
      forall u | t < u <= ts
        ensures WorkSeconds(u, ts) < n
      {
        WorkSecondsMonotone(lo + 1, u, ts, ts);
      }
    } else {
      t := FindLatest(lo + 1, ts, n);
    }
  }

  /** The latest moment with n working seconds between it and ts. */
  ghost function LatestWith(ts: int, n: nat): (t: int)
    ensures IsLatest(t, ts, n)
  {
    assert exists t :: IsLatest(t, ts, n) by {
      EnoughWorkBefore(ts, n);
      var t := FindLatest(ts - 6 * DAY * n, ts, n);
    }
    var t :| IsLatest(t, ts, n);
    t
  }

  lemma {:induction false} LatestIsUnique(t: int, ts: int, n: nat)
    requires IsLatest(t, ts, n)
    ensures t == LatestWith(ts, n)
  {
  }

  /** Measure and search are adjoint: t reaches back n seconds of work iff it is not after LatestWith. */
  lemma {:induction false} Adjunction(t: int, ts: int, n: nat)
    requires t <= ts
    ensures n <= WorkSeconds(t, ts) <==> t <= LatestWith(ts, n)
  {
    var p := LatestWith(ts, n);
    if t <= p {
      WorkSecondsMonotone(t, p, ts, ts);
    }
  }

  /** Round trip: the search attains the amount exactly. */
  lemma {:induction false} LatestAttains(ts: int, n: nat)
    ensures WorkSeconds(LatestWith(ts, n), ts) == n
  {
    var p := LatestWith(ts, n);
    if p < ts {
      WorkSecondsAdditive(p, p + 1, ts);
    }
  }

  /** Searching back n and then m seconds of work is searching back n + m. */
  lemma {:induction false} LatestComposes(ts: int, n: nat, m: nat)
    ensures LatestWith(LatestWith(ts, n), m) == LatestWith(ts, n + m)
  {
    var p := LatestWith(ts, n);
    var q := LatestWith(p, m);
    LatestAttains(ts, n);
    LatestAttains(p, m);
    WorkSecondsAdditive(q, p, ts);
    forall u | q < u <= ts
      ensures WorkSeconds(u, ts) < n + m
    {
      if u <= p {
        WorkSecondsAdditive(u, p, ts);
      } else {
        assert WorkSeconds(u, ts) < n;
      }
    }
    LatestIsUnique(q, ts, n + m);
  }

  lemma {:induction false} LatestIsStrict(ts: int, n: nat, m: nat)
    ensures LatestWith(ts, n) == LatestWith(ts, m) <==> n == m
  {
    LatestAttains(ts, n);
    LatestAttains(ts, m);
  }

  function Seconds(hours: real): real {
    hours * 3600.0
  }

  function Ceiling(x: real): int {
    -((-x).Floor)
  }

  predicate IsWhole(x: real) {
    x == x.Floor as real
  }

  /** Python's int(): towards zero. */
  function Truncate(x: real): int {
    if 0.0 <= x then x.Floor else Ceiling(x)
  }

  /**
   The value of the search.  `int()` truncates towards zero, so a fractional
   moment before 1970 is rounded up instead of down.
   */
  ghost function Ago(ts: int, hours: real): int {
    if hours <= 0.0 then
      ts
    else
      var p := LatestWith(ts, Ceiling(Seconds(hours)));
      if p < 0 && !IsWhole(Seconds(hours)) then p + 1 else p
  }

  lemma {:induction false} FloorShift(n: int, y: real)
    ensures (n as real + y).Floor == n + y.Floor
  {
  }

  lemma {:induction false} CeilingShift(n: int, r: real)
    ensures Ceiling(n as real + r) == n + Ceiling(r)
  {
    FloorShift(-n, -r);
    assert -(n as real + r) == (-n) as real + (-r);
  }

  lemma {:induction false} TruncateBelow(end: int, r: real)
    ensures var p := end - Ceiling(r);
            Truncate(end as real - r) == if p < 0 && !IsWhole(r) then p + 1 else p
  {
    FloorShift(end, -r);
    FloorShift(-end, r);
    var x := end as real - r;
    assert x == end as real + (-r) && -x == (-end) as real + r;
  }

  /** The search has come back to `current`, and the rest is still to be found. */
  ghost predicate Searching(ts: int, hours: real, current: int, minutes: real) {
    minutes > 0.0 && current <= ts && minutes * 60.0 == Seconds(hours) - WorkSeconds(current, ts) as real
  }

  /** From a moment back to the previous day's close: only that day's own hours are passed. */
  lemma {:induction false} StepBack(day: int, current: int, ts: int)
    requires LocalDay(current) == day && current <= ts
    ensures var before := DayStart(day - 1) + WORK_END;
            && before < current
            && LocalDay(before) == day - 1 && WORK_START < LocalSecond(before)
            && WorkSeconds(before, ts) == WorkSeconds(current, ts) + Overlap(day, DayStart(day), current)
            && (!IsWorkingDay(day) ==> DaysBack(day - 1) < DaysBack(day))
            && DaysBack(day - 1) <= 4
  {
    var before := DayStart(day - 1) + WORK_END;
    LocalDayIs(current, day);
    LocalDayIs(before, day - 1);
    WorkSecondsInDay(day - 1, before, DayStart(day));
    WorkSecondsInDay(day, DayStart(day), current);
    WorkSecondsAdditive(before, DayStart(day), current);
    WorkSecondsAdditive(before, current, ts);
    if !IsWorkingDay(day) {
      DaysBackDecreases(day);
    }
  }

  lemma {:induction false} FewerSeconds(minutes: real, slot: int)
    requires 0 <= slot
    ensures (minutes - slot as real / 60.0) * 60.0 == minutes * 60.0 - slot as real
    ensures 0 < slot ==> Ceiling((minutes - slot as real / 60.0) * 60.0) < Ceiling(minutes * 60.0)
  {
    assert slot as real / 60.0 * 60.0 == slot as real;
  }

  /** A day whose slot is shorter than the rest is passed, and its slot is used up. */
  lemma {:induction false} SearchContinues(ts: int, hours: real, day: int, current: int, slot: int, minutes: real)
    requires Searching(ts, hours, current, minutes) && LocalDay(current) == day
    requires slot == Overlap(day, DayStart(day), current) && slot as real / 60.0 < minutes
    ensures Searching(ts, hours, DayStart(day - 1) + WORK_END, minutes - slot as real / 60.0)
    ensures 0 < slot ==> Ceiling((minutes - slot as real / 60.0) * 60.0) < Ceiling(minutes * 60.0)
  {
    StepBack(day, current, ts);
    FewerSeconds(minutes, slot);
  }

  /** The moment the given number of working hours ago, day by day backwards. */
  method WorkingHoursAgo(ts: int, hours: real) returns (t: int)
    ensures t == Ago(ts, hours)
  {
    var remainingMinutes := hours * 60.0;
    var current := ts;
    while remainingMinutes > 0.0
      invariant hours <= 0.0 ==> remainingMinutes <= 0.0 && current == ts
      invariant hours > 0.0 ==> Searching(ts, hours, current, remainingMinutes)
      decreases Ceiling(remainingMinutes * 60.0),
                if LocalSecond(current) <= WORK_START then 5 else DaysBack(LocalDay(current))
    {
      ghost var day, was, minutes, slot := LocalDay(current), current, remainingMinutes, 0;
      LocalDayIs(current, day);
      if IsWorkingDay(LocalDay(current)) {
        var dayStart := DayStart(LocalDay(current)) + WORK_START;
        var dayEnd := DayStart(LocalDay(current)) + WORK_END;
        var effectiveEnd := Min(dayEnd, current);
        var effectiveStart := dayStart;
        if effectiveStart < effectiveEnd {
          var available := (effectiveEnd - effectiveStart) as real / 60.0;
          if available >= remainingMinutes {
            var result := effectiveEnd as real - remainingMinutes * 60.0;
            SearchEnds(ts, hours, current, effectiveEnd, remainingMinutes * 60.0);
            return Truncate(result);
          } else {
            slot := effectiveEnd - effectiveStart;
            remainingMinutes := remainingMinutes - available;
          }
        }
      }
      current := DayStart(LocalDay(current) - 1) + WORK_END;
      StepBack(day, was, ts);
      SearchContinues(ts, hours, day, was, slot, minutes);
    }
    t := current;
  }

  lemma {:induction false} SlotIsWorking(day: int, p: int)
    requires IsWorkingDay(day) && DayStart(day) + WORK_START <= p < DayStart(day) + WORK_END
    ensures Working(p) && DayStart(day) <= p
  {
    LocalDayIs(p, day);
  }

  lemma {:induction false} SlotOverlap(day: int, p: int, current: int, end: int)
    requires IsWorkingDay(day) && end == Min(DayStart(day) + WORK_END, current)
    requires DayStart(day) + WORK_START <= p < end
    ensures Overlap(day, p, current) == end - p
  {
  }

  /** c seconds before the end of a working stretch of `day` that reaches up to `current`. */
  lemma {:induction false} SlotPosition(day: int, current: int, end: int, c: int)
    requires LocalDay(current) == day && IsWorkingDay(day)
    requires end == Min(DayStart(day) + WORK_END, current)
    requires 1 <= c <= end - (DayStart(day) + WORK_START)
    ensures end - c < current && Working(end - c) && WorkSeconds(end - c, current) == c
  {
    LocalDayIs(current, day);
    SlotIsWorking(day, end - c);
    WorkSecondsInDay(day, end - c, current);
    SlotOverlap(day, end - c, current, end);
  }

  lemma {:induction false} CeilingBounds(r: real, n: int)
    requires 0.0 < r <= n as real
    ensures 1 <= Ceiling(r) <= n
  {
  }

  /** The search stops inside a working slot that ends at `end` and holds the rest r. */
  lemma {:induction false} SearchEnds(ts: int, hours: real, current: int, end: int, r: real)
    requires hours > 0.0 && current <= ts
    requires r > 0.0 && r == Seconds(hours) - WorkSeconds(current, ts) as real
    requires var day := LocalDay(current);
             && IsWorkingDay(day)
             && end == Min(DayStart(day) + WORK_END, current)
             && r <= (end - (DayStart(day) + WORK_START)) as real
    ensures Truncate(end as real - r) == Ago(ts, hours)
  {
    var day, c, total := LocalDay(current), Ceiling(r), Seconds(hours);
    var p := end - c;
    CeilingBounds(r, end - (DayStart(day) + WORK_START));
    SlotPosition(day, current, end, c);
    WorkSecondsAdditive(p, current, ts);
    CeilingShift(WorkSeconds(current, ts), r);
    assert WorkSeconds(current, ts) as real + r == total;
    LatestAtWorkingSecond(p, ts);
    LatestIsUnique(p, ts, Ceiling(total));
    SameFraction(WorkSeconds(current, ts), r);
    TruncateBelow(end, r);
  }

  lemma {:induction false} SameFraction(n: int, r: real)
    ensures IsWhole(n as real + r) == IsWhole(r)
  {
    FloorShift(n, r);
  }

  // ---- The two loops together ----

  /** Working time since 1970 is at least n seconds. */
  predicate SinceEpoch(ts: int, n: int) {
    0 <= ts && n <= WorkSeconds(0, ts)
  }

  lemma {:induction false} MomentSinceEpoch(ts: int, n: nat)
    requires 0 < n
    ensures 0 <= LatestWith(ts, n) <==> SinceEpoch(ts, n)
  {
    if 0 <= ts {
      Adjunction(0, ts, n);
    }
  }

  lemma {:induction false} AgoUntruncated(ts: int, hours: real)
    requires 0.0 <= hours
    requires IsWhole(Seconds(hours)) || SinceEpoch(ts, Ceiling(Seconds(hours)))
    ensures Ago(ts, hours) == LatestWith(ts, Ceiling(Seconds(hours)))
  {
    if 0.0 < hours {
      MomentSinceEpoch(ts, Ceiling(Seconds(hours)));
    } else {
      LatestIsUnique(ts, ts, 0);
    }
  }

  /**
   The moment `hours` ago has at least `hours` of work up to ts exactly when the
   amount is a whole number of seconds or that much work lies after 1970.
   Whenever it has, the measured time is the amount rounded up to a second and
   no later moment would do.
   */
  lemma {:induction false} RoundTrip(ts: int, hours: real)
    requires 0.0 < hours
    ensures var t := Ago(ts, hours);
            && t <= ts
            && (Seconds(hours) <= WorkSeconds(t, ts) as real
                <==> IsWhole(Seconds(hours)) || SinceEpoch(ts, Ceiling(Seconds(hours))))
            && (Seconds(hours) <= WorkSeconds(t, ts) as real ==>
                  && WorkSeconds(t, ts) == Ceiling(Seconds(hours))
                  && forall u :: t < u <= ts ==> WorkSeconds(u, ts) as real < Seconds(hours))
  {
    var n := Ceiling(Seconds(hours));
    var p := LatestWith(ts, n);
    LatestAttains(ts, n);
    MomentSinceEpoch(ts, n);
    if !(IsWhole(Seconds(hours)) || SinceEpoch(ts, n)) {
      assert WorkSeconds(p + 1, ts) < n;
    }
  }

  /** It happens: looking back half a second of work from the epoch finds a moment with no work at all. */
  lemma {:induction false} FractionFallsShort()
    ensures Seconds(0.5 / 3600.0) == 0.5 && WorkSeconds(Ago(0, 0.5 / 3600.0), 0) == 0
  {
    RoundTrip(0, 0.5 / 3600.0);
    assert Ceiling(0.5) == 1 && !IsWhole(0.5);
  }

  lemma {:induction false} WholeSum(x: real, y: real)
    requires IsWhole(x) && IsWhole(y)
    ensures IsWhole(x + y) && Ceiling(x + y) == Ceiling(x) + Ceiling(y)
  {
    FloorShift(x.Floor, y);
    FloorShift(-x.Floor, -y);
    assert -(x + y) == (-x.Floor) as real + (-y);
    assert -x == (-x.Floor) as real;
  }

  /** Two searches in a row, for whole seconds at any time. */
  lemma {:induction false} AgoComposes(ts: int, a: real, b: real)
    requires 0.0 <= a && 0.0 <= b && IsWhole(Seconds(a)) && IsWhole(Seconds(b))
    ensures Ago(Ago(ts, a), b) == Ago(ts, a + b)
  {
    var n, m := Ceiling(Seconds(a)), Ceiling(Seconds(b));
    assert Seconds(a + b) == Seconds(a) + Seconds(b);
    WholeSum(Seconds(a), Seconds(b));
    AgoUntruncated(ts, a);
    AgoUntruncated(Ago(ts, a), b);
    AgoUntruncated(ts, a + b);
    LatestComposes(ts, n, m);
  }

  /** For fractional amounts, since 1970: they compose exactly when rounding up does. */
  lemma {:induction false} FractionsCompose(ts: int, a: real, b: real)
    requires 0.0 <= a && 0.0 <= b
    requires SinceEpoch(ts, Ceiling(Seconds(a)) + Ceiling(Seconds(b)))
    ensures Ago(Ago(ts, a), b) == Ago(ts, a + b)
            <==> Ceiling(Seconds(a + b)) == Ceiling(Seconds(a)) + Ceiling(Seconds(b))
  {
    var n, m := Ceiling(Seconds(a)), Ceiling(Seconds(b));
    assert Seconds(a + b) == Seconds(a) + Seconds(b);
    assert Ceiling(Seconds(a + b)) <= n + m;
    AgoUntruncated(ts, a);
    LatestComposes(ts, n, m);
    LatestAttains(ts, n);
    var p := LatestWith(ts, n);
    assert SinceEpoch(p, m) by {
      if n + m > 0 {
        MomentSinceEpoch(ts, n + m);
      }
      assert LatestWith(ts, n + m) == LatestWith(p, m);
      LatestAttains(p, m);
      WorkSecondsMonotone(0, LatestWith(p, m), p, p);
    }
    AgoUntruncated(p, b);
    AgoUntruncated(ts, a + b);
    LatestIsStrict(ts, n + m, Ceiling(Seconds(a + b)));
  }
}
