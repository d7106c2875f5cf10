/** Time windows: the membership test of the engine, what it means in absolute time, and the
    search for the next flip that the wake scheduler uses. */
module Windows {
  import opened Rules
  import opened Calendar

  predicate DaysAllow(days: seq<nat>, weekday: nat) {
    days == [] || weekday in days
  }

  function PrevWeekday(weekday: nat): nat {
    if weekday <= 1 then 7 else weekday - 1
  }

  /** A window with its clock times parsed. */
  datatype Span = Span(start: nat, end: nat, days: seq<nat>)

  function SpanOf(w: TimeWindow): Span {
    Span(ParseHhmm(w.start), ParseHhmm(w.end), w.days)
  }

  predicate InSpan(w: Span, nowMin: nat, weekday: nat) {
    if w.start == w.end then false
    else if w.start < w.end then DaysAllow(w.days, weekday) && w.start <= nowMin < w.end
    else if nowMin >= w.start then DaysAllow(w.days, weekday)
    else if nowMin < w.end then DaysAllow(w.days, PrevWeekday(weekday))
    else false
  }

  predicate InWindow(w: TimeWindow, nowMin: nat, weekday: nat) {
    InSpan(SpanOf(w), nowMin, weekday)
  }

  /** The same test at an absolute local minute. */
  predicate InsideAtMinute(w: Span, minute: int) {
    InSpan(w, minute % MINUTES_PER_DAY, Weekday(minute / MINUTES_PER_DAY))
  }

  /** The same test at an absolute local second. */
  predicate InsideAt(w: Span, local: int) {
    InSpan(w, MinuteOf(local), Weekday(DayOf(local)))
  }

  // ---------- meaning in absolute time ----------

  function Clip(minute: nat): nat {
    if minute < MINUTES_PER_DAY then minute else MINUTES_PER_DAY
  }

  /** The window opened on day k contains the absolute minute: a half-open interval that starts
      on day k and, when the end is not after the start, runs into day k + 1. */
  predicate Covers(w: Span, k: int, minute: int) {
    var midnight := MINUTES_PER_DAY * k;
    && w.start != w.end
    && (w.days == [] || Weekday(k) in w.days)
    && midnight + Clip(w.start) <= minute
    && minute < midnight + Clip(w.end) + (if w.start < w.end then 0 else MINUTES_PER_DAY)
  }

  /** A minute is inside a window exactly when the window opened on some allowed day covers it. */
  lemma WindowMeaning(w: Span, minute: int)
    ensures InsideAtMinute(w, minute) <==> exists k :: Covers(w, k, minute)
  {
    var day := minute / MINUTES_PER_DAY;
    PrevDayWeekday(day);
    if InsideAtMinute(w, minute) {
      assert Covers(w, day, minute) || Covers(w, day - 1, minute);
    }
    if k :| Covers(w, k, minute) {
      assert k == day || k == day - 1;
    }
  }

  lemma PrevDayWeekday(day: int)
    ensures PrevWeekday(Weekday(day)) == Weekday(day - 1)
  {}

  lemma SecondToMinute(w: Span, local: int)
    ensures InsideAt(w, local) == InsideAtMinute(w, local / 60)
  {
    DayFromMinutes(local);
  }

  // ---------- the next flip ----------

  const SEARCH_MINUTES := 2 * MINUTES_PER_DAY

  /** Membership `step` minutes after a minute and weekday. */
  predicate InsideAfter(w: Span, nowMin: nat, weekday: nat, step: nat)
    requires weekday >= 1
  {
    var abs := nowMin + step;
    InSpan(w, abs % MINUTES_PER_DAY, (weekday - 1 + abs / MINUTES_PER_DAY) % 7 + 1)
  }

  /** The first step within the search range at which membership differs from now. */
  function FlipFrom(w: Span, nowMin: nat, weekday: nat, step: nat): (r: Option<nat>)
    requires weekday >= 1
    ensures r.Some? ==>
      && step <= r.value <= SEARCH_MINUTES
      && InsideAfter(w, nowMin, weekday, r.value) != InSpan(w, nowMin, weekday)
    ensures forall j | step <= j <= SEARCH_MINUTES && (r.Some? ==> j < r.value) ::
      InsideAfter(w, nowMin, weekday, j) == InSpan(w, nowMin, weekday)
    decreases SEARCH_MINUTES + 1 - step
  {
    if step > SEARCH_MINUTES then None
    else if InsideAfter(w, nowMin, weekday, step) != InSpan(w, nowMin, weekday) then Some(step)
    else FlipFrom(w, nowMin, weekday, step + 1)
  }

  function FlipSecs(step: nat, secInMin: nat): nat {
    if 60 * step - secInMin < 1 then 1 else 60 * step - secInMin
  }

  /** Seconds to the next flip of the window, the specification of `WindowEdgeSecs`. */
  function EdgeSecs(w: Span, nowMin: nat, weekday: nat, secInMin: nat): Option<nat>
    requires weekday >= 1
  {
    if w.start == w.end then None
    else match FlipFrom(w, nowMin, weekday, 1)
      case Some(step) => Some(FlipSecs(step, secInMin))
      case None => None
  }

  lemma FlipStep(w: Span, nowMin: nat, weekday: nat, step: nat)
    requires weekday >= 1
    ensures FlipFrom(w, nowMin, weekday, step) ==
      if step > SEARCH_MINUTES then None
      else if InsideAfter(w, nowMin, weekday, step) != InSpan(w, nowMin, weekday) then Some(step)
      else FlipFrom(w, nowMin, weekday, step + 1)
  {}

  /** The minute-by-minute walk of the scheduler, with its own copy of the window predicate. */
  method WindowEdgeSecs(w: TimeWindow, nowMin: nat, weekday: nat, secInMin: nat) returns (r: Option<nat>)
    requires weekday >= 1
    ensures r == EdgeSecs(SpanOf(w), nowMin, weekday, secInMin)
  {
    hide FlipFrom, ParseHhmm;
    var start, end := ParseHhmm(w.start), ParseHhmm(w.end);
    ghost var span := SpanOf(w);
    if start == end {
      return None;
    }
    var inside := InWindow(w, nowMin, weekday);
    ghost var flip := FlipFrom(span, nowMin, weekday, 1);
    for step := 1 to SEARCH_MINUTES + 1
      invariant flip == FlipFrom(span, nowMin, weekday, step)
    {
      FlipStep(span, nowMin, weekday, step);
      var abs := nowMin + step;
      var m := abs % MINUTES_PER_DAY;
      var d := (weekday - 1 + abs / MINUTES_PER_DAY) % 7 + 1;
      var nowInside;
      if start < end {
        nowInside := DaysAllow(w.days, d) && start <= m && m < end;
      } else if m >= start {
        nowInside := DaysAllow(w.days, d);
      } else if m < end {
        nowInside := DaysAllow(w.days, PrevWeekday(d));
      } else {
        nowInside := false;
      }
      assert nowInside == InsideAfter(span, nowMin, weekday, step);
      if nowInside != inside {
        return Some(FlipSecs(step, secInMin));
      }
    }
    FlipStep(span, nowMin, weekday, SEARCH_MINUTES + 1);
    return None;
  }

  /** The scheduler's edge for a window at an absolute local second. */
  function EdgeAt(w: Span, local: int): Option<nat> {
    EdgeSecs(w, MinuteOf(local), Weekday(DayOf(local)), local % 60)
  }

  lemma AfterSeconds(w: Span, local: int, t: nat)
    ensures InsideAt(w, local + t) ==
            InsideAfter(w, MinuteOf(local), Weekday(DayOf(local)), (local % 60 + t) / 60)
  {
    var minute, step := local / 60, (local % 60 + t) / 60;
    SecondToMinute(w, local + t);
    MinutesAhead(local, t);
    DayFromMinutes(local);
    SplitMinutes(minute, step);
    WeekdayAhead(minute / MINUTES_PER_DAY, (minute % MINUTES_PER_DAY + step) / MINUTES_PER_DAY);
  }

  lemma SplitMinutes(minute: int, step: nat)
    ensures (minute + step) % MINUTES_PER_DAY == (minute % MINUTES_PER_DAY + step) % MINUTES_PER_DAY
    ensures (minute + step) / MINUTES_PER_DAY
         == minute / MINUTES_PER_DAY + (minute % MINUTES_PER_DAY + step) / MINUTES_PER_DAY
  {}

  /** Membership never changes in [from, to). */
  ghost predicate ConstantOver(w: Span, from: int, to: int) {
    forall at | from <= at < to :: InsideAt(w, at) == InsideAt(w, from)
  }

  /** Seconds that fall before a minute step fall on an earlier step. */
  lemma NoFlipBefore(w: Span, local: int, at: int, steps: nat)
    requires local <= at < local - local % 60 + 60 * steps
    requires var m, d := MinuteOf(local), Weekday(DayOf(local));
      forall j | 1 <= j < steps :: InsideAfter(w, m, d, j) == InSpan(w, m, d)
    ensures InsideAt(w, at) == InsideAt(w, local)
  {
    AfterSeconds(w, local, at - local);
    AfterSeconds(w, local, 0);
  }

  lemma ConstantBefore(w: Span, local: int, steps: nat)
    requires var m, d := MinuteOf(local), Weekday(DayOf(local));
      forall j | 1 <= j < steps :: InsideAfter(w, m, d, j) == InSpan(w, m, d)
    ensures ConstantOver(w, local, local - local % 60 + 60 * steps)
  {
    forall at | local <= at < local - local % 60 + 60 * steps
      ensures InsideAt(w, at) == InsideAt(w, local)
    {
      NoFlipBefore(w, local, at, steps);
    }
  }

  /** `Some(s)`: membership differs s seconds from now and at no earlier second.
      `None`: membership stays the same for the whole search range. */
  lemma EdgeIsFirstFlip(w: Span, local: int)
    ensures match EdgeAt(w, local)
      case Some(s) =>
        && s >= 1
        && InsideAt(w, local + s) != InsideAt(w, local)
        && ConstantOver(w, local, local + s)
      case None =>
        ConstantOver(w, local, local - local % 60 + 60 * (SEARCH_MINUTES + 1))
  {
    var m, d := MinuteOf(local), Weekday(DayOf(local));
    if w.start != w.end {
      var flip := FlipFrom(w, m, d, 1);
      ConstantBefore(w, local, if flip.Some? then flip.value else SEARCH_MINUTES + 1);
      if flip.Some? {
        AfterSeconds(w, local, 60 * flip.value - local % 60);
      }
    }
  }

  /** What the scheduler relies on: no flip before the edge, nor within a few days without one. */
  lemma SameUntilEdge(w: Span, local: int, s: nat)
    requires EdgeAt(w, local).Some? ==> s < EdgeAt(w, local).value
    requires s <= 60 * SEARCH_MINUTES
    ensures InsideAt(w, local + s) == InsideAt(w, local)
  {
    EdgeIsFirstFlip(w, local);
  }

  /** The step, at most a day ahead, at which the minute of the day is next equal to `minute`. */
  function StepTo(nowMin: nat, minute: nat): (step: nat)
    requires nowMin < MINUTES_PER_DAY && minute < MINUTES_PER_DAY
    ensures 1 <= step <= MINUTES_PER_DAY
    ensures nowMin + step == minute || nowMin + step == minute + MINUTES_PER_DAY
  {
    if minute > nowMin then minute - nowMin else minute + MINUTES_PER_DAY - nowMin
  }

  ghost predicate ClockTimes(w: Span) {
    && w.start < MINUTES_PER_DAY
    && w.end < MINUTES_PER_DAY
    && w.start != w.end
  }

  /** Membership at a step that lands on a given minute, n days on. */
  lemma AfterOnDay(w: Span, m: nat, d: nat, step: nat, minute: nat, n: nat)
    requires d >= 1 && minute < MINUTES_PER_DAY && m + step == minute + MINUTES_PER_DAY * n
    ensures InsideAfter(w, m, d, step) == InSpan(w, minute, (d - 1 + n) % 7 + 1)
  {}

  /** A window of every day flips within one day. */
  lemma EveryDayFlipsWithinADay(w: Span, local: int)
    requires ClockTimes(w) && w.days == []
    ensures EdgeAt(w, local).Some? && EdgeAt(w, local).value <= SECS_PER_DAY
  {
    var m, d := MinuteOf(local), Weekday(DayOf(local));
    var opening, closing := StepTo(m, w.start), StepTo(m, w.end);
    AfterOnDay(w, m, d, opening, w.start, (m + opening) / MINUTES_PER_DAY);
    AfterOnDay(w, m, d, closing, w.end, (m + closing) / MINUTES_PER_DAY);
    assert InsideAfter(w, m, d, opening) && !InsideAfter(w, m, d, closing);
  }

  /** A window that contains no minute of any day, whatever its weekdays. */
  predicate NeverOpen(w: Span) {
    w.start == w.end || (w.start >= MINUTES_PER_DAY && (w.start < w.end || w.end == 0))
  }

  /** A window that fills whole days: each day it opens on, or each day after one. */
  predicate FillsDays(w: Span) {
    if w.start < w.end then w.start == 0 && w.end >= MINUTES_PER_DAY
    else w.start > w.end >= MINUTES_PER_DAY
  }

  /** Whether such a window covers one of the next two days differently from today. */
  predicate DaysDiffer(w: Span, weekday: nat) {
    var first := if w.start < w.end then weekday else PrevWeekday(weekday);
    var second := first % 7 + 1;
    DaysAllow(w.days, first) != DaysAllow(w.days, second)
    || DaysAllow(w.days, first) != DaysAllow(w.days, second % 7 + 1)
  }

  /** What decides whether another window flips within the two days searched: the weekday filter at
      the days whose opening or closing edge lies in that range. */
  predicate EdgeInRange(w: Span, nowMin: nat, weekday: nat) {
    var next := weekday % 7 + 1;
    var today := DaysAllow(w.days, weekday);
    || DaysAllow(w.days, next)
    || (w.start <= nowMin && DaysAllow(w.days, next % 7 + 1))
    || (if w.start < w.end then w.end > nowMin && today
        else today || (w.end > nowMin && DaysAllow(w.days, PrevWeekday(weekday))))
  }

  /** A window flips within the two days searched exactly when it can be open at all and, if it fills
      whole days, these differ, or else one of its edges lies in the range. */
  predicate Flips(w: Span, nowMin: nat, weekday: nat) {
    !NeverOpen(w) && if FillsDays(w) then DaysDiffer(w, weekday) else EdgeInRange(w, nowMin, weekday)
  }

  /** The exact condition of the two-day claim, for every window. */
  lemma FlipsWithinTwoDaysIff(w: Span, local: int)
    ensures EdgeAt(w, local).Some? <==> Flips(w, MinuteOf(local), Weekday(DayOf(local)))
  {
    var m, d := MinuteOf(local), Weekday(DayOf(local));
    if Flips(w, m, d) {
      var step := SomeStepFlips(w, m, d);
    } else if w.start != w.end {
      forall step: nat | 1 <= step <= SEARCH_MINUTES
        ensures InsideAfter(w, m, d, step) == InSpan(w, m, d)
      {
        NoStepFlips(w, m, d, step);
      }
    }
  }

  lemma NoStepFlips(w: Span, m: nat, d: nat, step: nat)
    requires m < MINUTES_PER_DAY && 1 <= d <= 7 && 1 <= step <= SEARCH_MINUTES && !Flips(w, m, d)
    ensures InsideAfter(w, m, d, step) == InSpan(w, m, d)
  {
    hide InSpan, Flips, InsideAfter;
    if m + step < MINUTES_PER_DAY {
      AfterOnDay(w, m, d, step, m + step, 0);
      SameOnDay(w, m, d, m + step, 0);
    } else if m + step < SEARCH_MINUTES {
      AfterOnDay(w, m, d, step, m + step - MINUTES_PER_DAY, 1);
      SameOnDay(w, m, d, m + step - MINUTES_PER_DAY, 1);
    } else {
      AfterOnDay(w, m, d, step, m + step - SEARCH_MINUTES, 2);
      SameOnDay(w, m, d, m + step - SEARCH_MINUTES, 2);
    }
  }

  /** The weekdays of tomorrow and the day after. */
  lemma NextDays(d: nat)
    requires 1 <= d <= 7
    ensures (d - 1) % 7 + 1 == d && d % 7 + 1 == (d - 1 + 1) % 7 + 1
    ensures (d % 7 + 1) % 7 + 1 == (d - 1 + 2) % 7 + 1
    ensures PrevWeekday(d % 7 + 1) == d && PrevWeekday((d % 7 + 1) % 7 + 1) == d % 7 + 1
    ensures PrevWeekday(d) % 7 + 1 == d && 1 <= PrevWeekday(d) <= 7
  {}

  /** A window that fills days covers a whole day or none of it. */
  lemma FilledDay(w: Span, m: nat, d: nat)
    requires m < MINUTES_PER_DAY && 1 <= d <= 7 && FillsDays(w)
    ensures InSpan(w, m, d) == DaysAllow(w.days, if w.start < w.end then d else PrevWeekday(d))
  {}

  /** Membership at a minute of today, tomorrow or the day after, within the search range. */
  lemma SameOnDay(w: Span, m: nat, d: nat, minute: nat, n: nat)
    requires m < MINUTES_PER_DAY && minute < MINUTES_PER_DAY && 1 <= d <= 7 && n <= 2 && !Flips(w, m, d)
    requires (n == 0 ==> m < minute) && (n == 2 ==> minute <= m)
    ensures InSpan(w, minute, (d - 1 + n) % 7 + 1) == InSpan(w, m, d)
  {
    hide PrevWeekday, DaysAllow;
    var d1 := d % 7 + 1;
    var d2 := d1 % 7 + 1;
    NextDays(d);
    if FillsDays(w) {
      FilledDay(w, m, d);
      FilledDay(w, minute, if n == 0 then d else if n == 1 then d1 else d2);
    } else if n == 0 {
      assert InSpan(w, minute, d) == InSpan(w, m, d);
    } else if n == 1 {
      assert InSpan(w, minute, d1) == InSpan(w, m, d);
    } else {
      assert InSpan(w, minute, d2) == InSpan(w, m, d);
    }
  }

  lemma SomeStepFlips(w: Span, m: nat, d: nat) returns (step: nat)
    requires m < MINUTES_PER_DAY && 1 <= d <= 7 && Flips(w, m, d)
    ensures 1 <= step <= SEARCH_MINUTES
    ensures InsideAfter(w, m, d, step) != InSpan(w, m, d)
  {
    if FillsDays(w) {
      step := DifferentDay(w, m, d);
    } else if InSpan(w, m, d) {
      step := ClosingStep(w, m, d);
    } else {
      step := OpeningStep(w, m, d);
    }
  }

  lemma DifferentDay(w: Span, m: nat, d: nat) returns (step: nat)
    requires m < MINUTES_PER_DAY && 1 <= d <= 7 && FillsDays(w) && DaysDiffer(w, d)
    ensures 1 <= step <= SEARCH_MINUTES
    ensures InsideAfter(w, m, d, step) != InSpan(w, m, d)
  {
    hide InsideAfter, InSpan, PrevWeekday, DaysAllow;
    var d1 := d % 7 + 1;
    NextDays(d);
    AfterOnDay(w, m, d, MINUTES_PER_DAY, m, 1);
    AfterOnDay(w, m, d, SEARCH_MINUTES, m, 2);
    FilledDay(w, m, d);
    FilledDay(w, m, d1);
    FilledDay(w, m, d1 % 7 + 1);
    step := if InsideAfter(w, m, d, MINUTES_PER_DAY) != InSpan(w, m, d) then MINUTES_PER_DAY else SEARCH_MINUTES;
  }

  /** Inside now: tomorrow's end minute, or midnight for an end beyond the day, is outside. */
  lemma ClosingStep(w: Span, m: nat, d: nat) returns (step: nat)
    requires m < MINUTES_PER_DAY && 1 <= d <= 7 && !FillsDays(w) && InSpan(w, m, d)
    ensures 1 <= step <= SEARCH_MINUTES
    ensures !InsideAfter(w, m, d, step)
  {
    var minute := if w.end < MINUTES_PER_DAY then w.end else 0;
    step := minute + MINUTES_PER_DAY - m;
    AfterOnDay(w, m, d, step, minute, 1);
  }

  /** Outside now: the next opening edge in range is inside. A start beyond the day opens at midnight. */
  lemma OpeningStep(w: Span, m: nat, d: nat) returns (step: nat)
    requires m < MINUTES_PER_DAY && 1 <= d <= 7 && !NeverOpen(w) && !FillsDays(w)
    requires !InSpan(w, m, d) && EdgeInRange(w, m, d)
    ensures 1 <= step <= SEARCH_MINUTES
    ensures InsideAfter(w, m, d, step)
  {
    hide InsideAfter;
    var n := if DaysAllow(w.days, d % 7 + 1) then 1 else if w.start <= m then 2 else 0;
    step := Clip(w.start) + MINUTES_PER_DAY * n - m;
    if w.start < MINUTES_PER_DAY {
      AfterOnDay(w, m, d, step, w.start, n);
    } else {
      AfterOnDay(w, m, d, step, 0, n + 1);
      assert PrevWeekday((d - 1 + (n + 1)) % 7 + 1) == (d - 1 + n) % 7 + 1;
    }
  }

  /** The two-day claim is false for a window with weekdays: Monday 09:00 to 10:00, seen from
      a Tuesday, is reported as having no edge although it opens the next Monday. */
  lemma TwoDayClaimFails()
    ensures var mondays := SpanOf(TimeWindow("09:00", "10:00", [1]));
      exists tuesday: int ::
        && EdgeAt(mondays, tuesday) == None
        && !InsideAt(mondays, tuesday)
        && InsideAt(mondays, tuesday + 6 * SECS_PER_DAY)
  {
    hide ParseHhmm, EdgeAt, InsideAt;
    NineToTen();
    MondayWindowOnTuesday(SpanOf(TimeWindow("09:00", "10:00", [1])), 5 * SECS_PER_DAY + 34200);
  }

  lemma MondayWindowOnTuesday(w: Span, local: int)
    requires w.start == 540 && w.end == 600 && w.days == [1]
    requires MinuteOf(local) == 570 && Weekday(DayOf(local)) == 2
    ensures EdgeAt(w, local) == None
    ensures !InsideAt(w, local) && InsideAt(w, local + 6 * SECS_PER_DAY)
  {
    FlipsWithinTwoDaysIff(w, local);
    assert DayOf(local + 6 * SECS_PER_DAY) == DayOf(local) + 6;
    DayFromMinutes(local);
    DayFromMinutes(local + 6 * SECS_PER_DAY);
    WeekdayAhead(DayOf(local), 6);
  }

  /** The claim also fails for windows of every day: one of 24 hours is always open and one beyond the
      day never is, and neither has an edge at any time. */
  lemma EveryDayClaimFails(local: int)
    ensures var day := SpanOf(TimeWindow("00:00", "24:00", []));
      InsideAt(day, local) && EdgeAt(day, local) == None
    ensures var late := SpanOf(TimeWindow("25:00", "26:00", []));
      !InsideAt(late, local) && EdgeAt(late, local) == None
  {
    hide ParseHhmm, FlipFrom;
    LateTimes();
    FlipsWithinTwoDaysIff(SpanOf(TimeWindow("00:00", "24:00", [])), local);
    FlipsWithinTwoDaysIff(SpanOf(TimeWindow("25:00", "26:00", [])), local);
  }

  lemma LateTimes()
    ensures ParseHhmm("00:00") == 0 && ParseHhmm("24:00") == 1440
    ensures ParseHhmm("25:00") == 1500 && ParseHhmm("26:00") == 1560
  {
    hide ParseHhmm, DigitsValue;
    TwoDigits("00", 0);
    TwoDigits("24", 24);
    TwoDigits("25", 25);
    TwoDigits("26", 26);
    OnTheHour("00", 0);
    OnTheHour("24", 24);
    OnTheHour("25", 25);
    OnTheHour("26", 26);
    assert "00:00" == "00" + ":00" && "24:00" == "24" + ":00" && "25:00" == "25" + ":00" && "26:00" == "26" + ":00";
  }

  lemma TwoDigits(s: string, value: nat)
    requires |s| == 2 && '0' <= s[0] <= '9' && '0' <= s[1] <= '9'
    requires value == 10 * (s[0] as int - '0' as int) + (s[1] as int - '0' as int)
    ensures DigitsValue(s, 0) == Some(value)
  {
    var tens, rest := s[0] as int - '0' as int, s[1..];
    assert rest[0] == s[1] && rest[1..] == "";
    assert DigitsValue(rest[1..], value) == Some(value);
    assert DigitsValue(rest, tens) == Some(value);
    assert DigitsValue(s, 0) == DigitsValue(rest, tens);
  }

  lemma OnTheHour(s: string, hour: nat)
    requires |s| == 2 && '0' <= s[0] <= '9' && '0' <= s[1] <= '9' && DigitsValue(s, 0) == Some(hour) && hour < 100
    ensures ParseHhmm(s + ":00") == 60 * hour
  {
    var t := s + ":00";
    assert t == s + ":" + "00" && ':' !in s;
    ColonAfter(s, "00");
    assert t[..2] == s && t[3..] == "00";
    TwoDigits("00", 0);
  }

  lemma NineToTen()
    ensures ParseHhmm("09:00") == 540 && ParseHhmm("10:00") == 600
  {
    hide ParseHhmm, DigitsValue;
    TwoDigits("09", 9);
    TwoDigits("10", 10);
    OnTheHour("09", 9);
    OnTheHour("10", 10);
    assert "09:00" == "09" + ":00" && "10:00" == "10" + ":00";
  }
}
