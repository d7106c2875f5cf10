/** The rules file: its datatypes, the parsing of clock times, and `sanitize`. */
module Rules {
  import opened Sorting

  datatype Option<+T> = None | Some(value: T)

  type Uid = nat

  /** The next element of a hash set, in no particular order. */
  method Pick<T>(s: set<T>) returns (x: T)
    requires s != {}
    ensures x in s
  {
    x :| x in s;
  }

  /** A window of the day. `days` holds ISO weekdays (1 = Monday); an empty list means every day. */
  datatype TimeWindow = TimeWindow(start: string, end: string, days: seq<nat>)

  datatype TimeWindows = TimeWindows(mode: string, windows: seq<TimeWindow>)

  datatype DurationRule = DurationRule(limitMinutes: nat, freezeMinutes: nat, scope: string)

  datatype RuleSet = RuleSet(
    alwaysOn: bool,
    lockBlock: bool,
    timeWindows: TimeWindows,
    duration: DurationRule)

  datatype AppRule = AppRule(key: string, enabled: bool, rules: RuleSet)

  datatype GroupRule = GroupRule(
    id: string,
    enabled: bool,
    sharedPool: bool,
    members: seq<string>,
    rules: RuleSet)

  /** `apps` and `groups` are listed in key order, as the ordered maps of the rules file iterate.
      `utcHours` is N for a "UTC+N" zone setting and None for a setting that does not parse. */
  datatype RuleFile = RuleFile(
    version: nat,
    utcHours: Option<int>,
    apps: seq<AppRule>,
    groups: seq<GroupRule>)

  const RULES_VERSION_MAX := 1

  const DEFAULT_RULES := RuleFile(0, Some(0), [], [])

  predicate HasApp(apps: seq<AppRule>, key: string) {
    exists i | 0 <= i < |apps| :: apps[i].key == key
  }

  /** Every enabled rule set: those of apps first, then those of groups. */
  function EnabledSets(rules: RuleFile): seq<RuleSet> {
    EnabledAppSets(rules.apps) + EnabledGroupSets(rules.groups)
  }

  function EnabledAppSets(apps: seq<AppRule>): (r: seq<RuleSet>)
    ensures forall a | a in apps && a.enabled :: a.rules in r
  {
    if apps == [] then []
    else
      var rest := EnabledAppSets(apps[1..]);
      if apps[0].enabled then [apps[0].rules] + rest else rest
  }

  function EnabledGroupSets(groups: seq<GroupRule>): (r: seq<RuleSet>)
    ensures forall g | g in groups && g.enabled :: g.rules in r
  {
    if groups == [] then []
    else
      var rest := EnabledGroupSets(groups[1..]);
      if groups[0].enabled then [groups[0].rules] + rest else rest
  }

  /** The rule set of some enabled app or group. */
  predicate EnabledSet(rules: RuleFile, s: RuleSet) {
    || (exists a | a in rules.apps :: a.enabled && a.rules == s)
    || (exists g | g in rules.groups :: g.enabled && g.rules == s)
  }

  /** The enabled rule sets are those of enabled apps and groups, and no others. */
  lemma EnabledSetsIff(rules: RuleFile, s: RuleSet)
    ensures s in EnabledSets(rules) <==> EnabledSet(rules, s)
  {
    if s in EnabledAppSets(rules.apps) {
      AppSetIsEnabled(rules.apps, s);
    }
    if s in EnabledGroupSets(rules.groups) {
      GroupSetIsEnabled(rules.groups, s);
    }
  }

  lemma {:induction false} AppSetIsEnabled(apps: seq<AppRule>, s: RuleSet)
    requires s in EnabledAppSets(apps)
    ensures exists a | a in apps :: a.enabled && a.rules == s
  {
    if apps[0].enabled && apps[0].rules == s {
      assert apps[0] in apps;
    } else {
      AppSetIsEnabled(apps[1..], s);
      var a :| a in apps[1..] && a.enabled && a.rules == s;
      assert a in apps;
    }
  }

  lemma {:induction false} GroupSetIsEnabled(groups: seq<GroupRule>, s: RuleSet)
    requires s in EnabledGroupSets(groups)
    ensures exists g | g in groups :: g.enabled && g.rules == s
  {
    if groups[0].enabled && groups[0].rules == s {
      assert groups[0] in groups;
    } else {
      GroupSetIsEnabled(groups[1..], s);
      var g :| g in groups[1..] && g.enabled && g.rules == s;
      assert g in groups;
    }
  }

  // ---------- clock times ----------

  const TWO_TO_THE_32 := 0x1_0000_0000

  function DigitsValue(s: string, acc: nat): Option<nat> {
    if s == "" then Some(acc)
    else if '0' <= s[0] <= '9' then DigitsValue(s[1..], 10 * acc + (s[0] as int - '0' as int))
    else None
  }

  /** A 32-bit unsigned parse: an optional plus sign, then one or more digits, without overflow. */
  function ParseU32(s: string): Option<nat> {
    var digits := if s != "" && s[0] == '+' then s[1..] else s;
    if digits == "" then None
    else match DigitsValue(digits, 0)
      case Some(v) => if v < TWO_TO_THE_32 then Some(v) else None
      case None => None
  }

  /** The index of the first colon, or the length when there is none. */
  function ColonIndex(s: string): (i: nat)
    ensures i <= |s|
    ensures i < |s| ==> s[i] == ':'
    ensures ':' !in s[..i]
  {
    if s == "" || s[0] == ':' then 0
    else
      var i := 1 + ColonIndex(s[1..]);
      assert s[..i] == [s[0]] + s[1..][..i - 1];
      i
  }

  lemma {:induction false} ColonAfter(prefix: string, rest: string)
    requires ':' !in prefix
    ensures ColonIndex(prefix + ":" + rest) == |prefix|
  {
    var s := prefix + ":" + rest;
    if prefix == "" {
    } else {
      ColonAfter(prefix[1..], rest);
      assert s[1..] == prefix[1..] + ":" + rest;
      assert s[0] == prefix[0] && prefix[0] in prefix;
    }
  }

  /** Minutes from midnight. Unreadable parts count as 0; the 32-bit arithmetic wraps. */
  function ParseHhmm(s: string): (r: nat)
    ensures r < TWO_TO_THE_32
  {
    var i := ColonIndex(s);
    if i == |s| then 0
    else
      var h := ParseU32(s[..i]);
      var m := ParseU32(s[i + 1..]);
      ((if h.Some? then h.value else 0) * 60 + (if m.Some? then m.value else 0)) % TWO_TO_THE_32
  }

  predicate AllDigits(s: string) {
    forall c | c in s :: '0' <= c <= '9'
  }

  /** The value of a decimal number, read from its last digit. */
  function Decimal(s: string): nat
    requires AllDigits(s)
  {
    if s == "" then 0
    else
      var n := |s| - 1;
      assert s[n] in s && forall c | c in s[..n] :: c in s;
      10 * Decimal(s[..n]) + (s[n] as int - '0' as int)
  }

  /** What one part of a clock time counts: a number of 32 bits, with or without a plus sign, and
      nothing else. */
  function PartValue(s: string): nat {
    var digits := if s != "" && s[0] == '+' then s[1..] else s;
    if digits != "" && AllDigits(digits) && Decimal(digits) < 0x1_0000_0000 then Decimal(digits) else 0
  }

  lemma {:induction false} DigitsSplit(s: string, rest: string, acc: nat)
    ensures DigitsValue(s + rest, acc) ==
      match DigitsValue(s, acc)
      case Some(v) => DigitsValue(rest, v)
      case None => None
  {
    if s == "" {
      assert s + rest == rest;
    } else {
      assert (s + rest)[0] == s[0] && (s + rest)[1..] == s[1..] + rest;
      if '0' <= s[0] <= '9' {
        DigitsSplit(s[1..], rest, 10 * acc + (s[0] as int - '0' as int));
      }
    }
  }

  lemma OneDigit(c: char, acc: nat)
    ensures DigitsValue([c], acc) == if '0' <= c <= '9' then Some(10 * acc + (c as int - '0' as int)) else None
  {
    assert [c][1..] == "";
    assert DigitsValue([c][1..], 10 * acc) == Some(10 * acc);
  }

  /** The left-to-right reading accepts exactly digit strings and yields their decimal value. */
  lemma {:induction false} DigitsValueIsDecimal(s: string)
    ensures DigitsValue(s, 0) == if AllDigits(s) then Some(Decimal(s)) else None
  {
    if s == "" {
    } else {
      var n := |s| - 1;
      var before := DigitsValue(s[..n], 0);
      DigitsValueIsDecimal(s[..n]);
      assert s == s[..n] + [s[n]];
      DigitsSplit(s[..n], [s[n]], 0);
      OneDigit(s[n], if before.Some? then before.value else 0);
      AllButLast(s);
    }
  }

  lemma AllButLast(s: string)
    requires s != ""
    ensures AllDigits(s) <==> AllDigits(s[..|s| - 1]) && '0' <= s[|s| - 1] <= '9'
  {
    var n := |s| - 1;
    assert forall k | 0 <= k < |s| :: s[k] in s;
    forall c | c in s && c != s[n] ensures c in s[..n] {
      var k :| 0 <= k < |s| && s[k] == c;
      assert s[..n][k] == c;
    }
  }

  /** A clock time is its hours and minutes, split at the first colon, in 32-bit arithmetic; an
      unreadable part counts as 0 and so does a text without a colon. */
  lemma ClockTime(hours: string, minutes: string)
    requires ':' !in hours
    ensures ParseHhmm(hours + ":" + minutes) == (60 * PartValue(hours) + PartValue(minutes)) % 0x1_0000_0000
    ensures ParseHhmm(hours) == 0
  {
    hide DigitsValue, ParseU32, PartValue;
    var s := hours + ":" + minutes;
    ColonAfter(hours, minutes);
    assert s[..|hours|] == hours && s[|hours| + 1..] == minutes;
    PartIsParsed(hours);
    PartIsParsed(minutes);
    var i := ColonIndex(hours);
    assert forall k | 0 <= k < |hours| :: hours[k] in hours;
  }

  lemma PartIsParsed(s: string)
    ensures PartValue(s) == var v := ParseU32(s); if v.Some? then v.value else 0
  {
    hide DigitsValue;
    DigitsValueIsDecimal(if s != "" && s[0] == '+' then s[1..] else s);
  }

  // ---------- sanitize ----------

  predicate ValidDay(d: nat) { 1 <= d <= 7 }

  function RetainValid(days: seq<nat>): (r: seq<nat>)
    ensures forall d :: d in r <==> d in days && ValidDay(d)
  {
    if days == [] then []
    else
      var rest := RetainValid(days[1..]);
      assert forall d :: d in days <==> d == days[0] || d in days[1..];
      if ValidDay(days[0]) then [days[0]] + rest else rest
  }

  function SanitizeDays(days: seq<nat>): seq<nat> {
    SortDedup(RetainValid(days), NatLess)
  }

  function SanitizedWindow(w: TimeWindow): TimeWindow {
    w.(days := SanitizeDays(w.days))
  }

  function SanitizedSet(rules: RuleSet): RuleSet {
    var ws := rules.timeWindows.windows;
    rules.(timeWindows :=
      rules.timeWindows.(windows := seq(|ws|, i requires 0 <= i < |ws| => SanitizedWindow(ws[i]))))
  }

  function Sanitized(rules: RuleFile): RuleFile {
    rules.(
      apps := seq(|rules.apps|, i requires 0 <= i < |rules.apps| =>
        rules.apps[i].(rules := SanitizedSet(rules.apps[i].rules))),
      groups := seq(|rules.groups|, i requires 0 <= i < |rules.groups| =>
        rules.groups[i].(rules := SanitizedSet(rules.groups[i].rules))))
  }

  /** The in-place edit of every window's weekday list of one rule set. */
  method SanitizeSet(rules: RuleSet) returns (r: RuleSet)
    ensures r == SanitizedSet(rules)
  {
    var ws := rules.timeWindows.windows;
    var i := 0;
    while i < |ws|
      invariant 0 <= i <= |ws| == |rules.timeWindows.windows|
      invariant ws[..i] == SanitizedSet(rules).timeWindows.windows[..i]
      invariant ws[i..] == rules.timeWindows.windows[i..]
    {
      assert ws[i] == ws[i..][0];
      ws := ws[i := ws[i].(days := SanitizeDays(ws[i].days))];
      i := i + 1;
    }
    r := rules.(timeWindows := rules.timeWindows.(windows := ws));
  }

  /** `sanitize` over a whole rules file: app rule sets first, then group rule sets. */
  method Sanitize(rules: RuleFile) returns (r: RuleFile)
    ensures r == Sanitized(rules)
  {
    r := rules;
    var i := 0;
    while i < |r.apps|
      invariant 0 <= i <= |r.apps| == |rules.apps|
      invariant r == rules.(apps := r.apps)
      invariant forall k | 0 <= k < i :: r.apps[k] == Sanitized(rules).apps[k]
      invariant forall k | i <= k < |r.apps| :: r.apps[k] == rules.apps[k]
    {
      var edited := SanitizeSet(r.apps[i].rules);
      r := r.(apps := r.apps[i := r.apps[i].(rules := edited)]);
      i := i + 1;
    }
    assert r.apps == Sanitized(rules).apps;
    i := 0;
    while i < |r.groups|
      invariant 0 <= i <= |r.groups| == |rules.groups|
      invariant r == rules.(apps := Sanitized(rules).apps, groups := r.groups)
      invariant forall k | 0 <= k < i :: r.groups[k] == Sanitized(rules).groups[k]
      invariant forall k | i <= k < |r.groups| :: r.groups[k] == rules.groups[k]
    {
      var edited := SanitizeSet(r.groups[i].rules);
      r := r.(groups := r.groups[i := r.groups[i].(rules := edited)]);
      i := i + 1;
    }
    assert r.groups == Sanitized(rules).groups;
  }

  /** The weekdays of `days` read off the calendar, Monday to Sunday: an independent reference. */
  function CalendarDays(days: seq<nat>, from: nat): (r: seq<nat>)
    requires 1 <= from <= 8
    ensures forall d :: d in r <==> d in days && from <= d <= 7
    ensures r == [] <==> forall d | from <= d <= 7 :: d !in days
    ensures forall i, j | 0 <= i < j < |r| :: r[i] < r[j]
    decreases 8 - from
  {
    if from == 8 then []
    else
      var rest := CalendarDays(days, from + 1);
      assert forall j | 0 <= j < |rest| :: rest[j] in rest;
      if from in days then [from] + rest else rest
  }

  /** Retain, sort and dedup leave exactly the valid weekdays of the list, in calendar order. */
  lemma SanitizeDaysSpec(days: seq<nat>)
    ensures SanitizeDays(days) == CalendarDays(days, 1)
  {
    assert StrictTotal(NatLess);
    SortDedupSpec(RetainValid(days), NatLess);
    AscendingUnique(SanitizeDays(days), CalendarDays(days, 1), NatLess);
  }

  /** The same windows, each with the valid weekdays of its list in calendar order, and the rest of the
      rule set as it was. */
  ghost predicate OnlyDaysSanitized(before: RuleSet, r: RuleSet) {
    var ws, vs := before.timeWindows.windows, r.timeWindows.windows;
    && r.alwaysOn == before.alwaysOn && r.lockBlock == before.lockBlock && r.duration == before.duration
    && r.timeWindows.mode == before.timeWindows.mode && |vs| == |ws|
    && forall i | 0 <= i < |ws| ::
         vs[i].start == ws[i].start && vs[i].end == ws[i].end && vs[i].days == CalendarDays(ws[i].days, 1)
  }

  /** Sanitizing edits the windows of every app and of every group, and nothing else. */
  lemma SanitizedIs(rules: RuleFile)
    ensures var r := Sanitized(rules);
      && r.version == rules.version && r.utcHours == rules.utcHours
      && |r.apps| == |rules.apps| && |r.groups| == |rules.groups|
      && (forall i | 0 <= i < |rules.apps| ::
            && r.apps[i].key == rules.apps[i].key && r.apps[i].enabled == rules.apps[i].enabled
            && OnlyDaysSanitized(rules.apps[i].rules, r.apps[i].rules))
      && (forall i | 0 <= i < |rules.groups| ::
            && r.groups[i].id == rules.groups[i].id && r.groups[i].enabled == rules.groups[i].enabled
            && r.groups[i].sharedPool == rules.groups[i].sharedPool
            && r.groups[i].members == rules.groups[i].members
            && OnlyDaysSanitized(rules.groups[i].rules, r.groups[i].rules))
  {
    hide SanitizedSet, OnlyDaysSanitized;
    forall s: RuleSet ensures OnlyDaysSanitized(s, SanitizedSet(s)) {
      SanitizedSetIs(s);
    }
  }

  lemma SanitizedSetIs(s: RuleSet)
    ensures OnlyDaysSanitized(s, SanitizedSet(s))
  {
    hide SanitizeDays, CalendarDays;
    forall i | 0 <= i < |s.timeWindows.windows|
      ensures SanitizedSet(s).timeWindows.windows[i].days == CalendarDays(s.timeWindows.windows[i].days, 1)
    {
      SanitizeDaysSpec(s.timeWindows.windows[i].days);
    }
  }

  lemma SanitizeDaysIdempotent(days: seq<nat>)
    ensures SanitizeDays(SanitizeDays(days)) == SanitizeDays(days)
  {
    SanitizeDaysSpec(days);
    SanitizeDaysSpec(SanitizeDays(days));
    AscendingUnique(CalendarDays(days, 1), CalendarDays(CalendarDays(days, 1), 1), NatLess);
  }

  /** Sanitizing twice is sanitizing once. */
  lemma SanitizeIdempotent(rules: RuleFile)
    ensures Sanitized(Sanitized(rules)) == Sanitized(rules)
  {
    var once, twice := Sanitized(rules), Sanitized(Sanitized(rules));
    forall i | 0 <= i < |rules.apps| ensures twice.apps[i] == once.apps[i] {
      SanitizeSetIdempotent(rules.apps[i].rules);
    }
    forall i | 0 <= i < |rules.groups| ensures twice.groups[i] == once.groups[i] {
      SanitizeSetIdempotent(rules.groups[i].rules);
    }
    assert twice.apps == once.apps && twice.groups == once.groups;
  }

  lemma SanitizeSetIdempotent(rules: RuleSet)
    ensures SanitizedSet(SanitizedSet(rules)) == SanitizedSet(rules)
  {
    var once, twice := SanitizedSet(rules), SanitizedSet(SanitizedSet(rules));
    forall i | 0 <= i < |rules.timeWindows.windows|
      ensures twice.timeWindows.windows[i] == once.timeWindows.windows[i]
    {
      SanitizeDaysIdempotent(rules.timeWindows.windows[i].days);
    }
    assert twice.timeWindows.windows == once.timeWindows.windows;
  }
}
