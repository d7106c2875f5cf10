/** The block decision of one rule set, and what sanitizing a rule set does to it. */
module Decision {
  import opened Rules
  import opened Calendar
  import opened Windows

  predicate InAny(windows: seq<TimeWindow>, nowMin: nat, weekday: nat) {
    exists w | w in windows :: InWindow(w, nowMin, weekday)
  }

  /** Priority: extension, always on, lock block, cooldown, duration, time windows. */
  predicate Eval(rules: RuleSet, nowMin: nat, weekday: nat,
                 extActive: bool, overDuration: bool, cooldown: bool, screenOff: bool) {
    if extActive then false
    else if rules.alwaysOn then true
    else if rules.lockBlock && screenOff then true
    else if cooldown then true
    else if overDuration then true
    else
      var tw := rules.timeWindows;
      tw.windows != [] &&
      (if tw.mode == "block" then InAny(tw.windows, nowMin, weekday)
       else !InAny(tw.windows, nowMin, weekday))
  }

  // ---------- sanitize keeps the decision ----------

  predicate KeepsADay(w: Span) {
    w.days == [] || exists d | d in w.days :: ValidDay(d)
  }

  ghost predicate SameWindow(v: Span, w: Span) {
    forall m: nat, d: nat | m < MINUTES_PER_DAY && 1 <= d <= 7 :: InSpan(v, m, d) == InSpan(w, m, d)
  }

  /** Sanitizing keeps the meaning of a window exactly when the weekday list is empty, keeps a valid
      day, or does not matter: a list of only invalid days turns "never" into "every day". */
  lemma SanitizeWindowIff(w: TimeWindow)
    ensures SameWindow(SpanOf(SanitizedWindow(w)), SpanOf(w)) <==> KeepsADay(SpanOf(w)) || NeverOpen(SpanOf(w))
  {
    SanitizeDaysSpec(w.days);
    ValidDaysIff(SpanOf(w), SanitizeDays(w.days));
  }

  lemma ValidDaysIff(w: Span, days: seq<nat>)
    requires forall d :: d in days <==> d in w.days && ValidDay(d)
    requires days == [] <==> forall d | ValidDay(d) :: d !in w.days
    ensures SameWindow(w.(days := days), w) <==> KeepsADay(w) || NeverOpen(w)
  {
    var v := w.(days := days);
    if KeepsADay(w) {
      assert forall d | 1 <= d <= 7 :: DaysAllow(days, d) == DaysAllow(w.days, d);
      assert forall d | 1 <= d <= 7 :: 1 <= PrevWeekday(d) <= 7;
    } else if !NeverOpen(w) {
      var m := if w.start < MINUTES_PER_DAY then w.start else 0;
      assert !DaysAllow(w.days, 1) && !DaysAllow(w.days, 7);
      assert InSpan(v, m, 1) && !InSpan(w, m, 1);
    }
  }

  /** The decision is unchanged for a rule set whose windows all keep their meaning. */
  lemma SanitizeKeepsEval(rules: RuleSet, nowMin: nat, weekday: nat,
                          extActive: bool, overDuration: bool, cooldown: bool, screenOff: bool)
    requires nowMin < MINUTES_PER_DAY && 1 <= weekday <= 7
    requires forall w | w in rules.timeWindows.windows :: KeepsADay(SpanOf(w)) || NeverOpen(SpanOf(w))
    ensures Eval(SanitizedSet(rules), nowMin, weekday, extActive, overDuration, cooldown, screenOff)
         == Eval(rules, nowMin, weekday, extActive, overDuration, cooldown, screenOff)
  {
    hide InSpan, ParseHhmm, SanitizeDays, KeepsADay, NeverOpen;
    var ws, vs := rules.timeWindows.windows, SanitizedSet(rules).timeWindows.windows;
    forall i | 0 <= i < |ws|
      ensures InWindow(vs[i], nowMin, weekday) == InWindow(ws[i], nowMin, weekday)
    {
      SanitizeWindowIff(ws[i]);
    }
    assert InAny(vs, nowMin, weekday) == InAny(ws, nowMin, weekday) by {
      if w :| w in ws && InWindow(w, nowMin, weekday) {
        var i :| 0 <= i < |ws| && ws[i] == w;
        assert vs[i] in vs;
      }
      if v :| v in vs && InWindow(v, nowMin, weekday) {
        var i :| 0 <= i < |vs| && vs[i] == v;
        assert ws[i] in ws;
      }
    }
  }

  /** A list of only invalid weekdays changes the decision: the window blocked never, then always. */
  lemma SanitizeChangesEval()
    ensures exists rules :: BlocksMondayNine(SanitizedSet(rules)) && !BlocksMondayNine(rules)
  {
    hide ParseHhmm, BlocksMondayNine;
    NineToTen();
    var w := TimeWindow("09:00", "10:00", [9]);
    InvalidDayWindow(RuleSet(false, false, TimeWindows("block", [w]), DurationRule(0, 0, "foreground")), w);
  }

  predicate BlocksMondayNine(rules: RuleSet) {
    Eval(rules, 540, 1, false, false, false, false)
  }

  lemma InvalidDayWindow(rules: RuleSet, w: TimeWindow)
    requires ParseHhmm(w.start) == 540 && ParseHhmm(w.end) == 600 && w.days == [9]
    requires rules.timeWindows == TimeWindows("block", [w])
    requires !rules.alwaysOn && !rules.lockBlock
    ensures BlocksMondayNine(SanitizedSet(rules)) && !BlocksMondayNine(rules)
  {
    var v := SanitizedWindow(w);
    SanitizeDaysSpec(w.days);
    assert SanitizedSet(rules).timeWindows.windows == [v];
    assert v in [v] && InWindow(v, 540, 1) && !InWindow(w, 540, 1);
  }
}
