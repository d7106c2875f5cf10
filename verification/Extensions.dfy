/** Extension minutes are conserved: what is granted is exactly what exempts. */
module Extensions {
  import opened Rules
  import opened Wake
  import opened Foreground
  import opened EngineState
  import opened Cooldowns

  /** What the daemon handles within a second: extension requests and ticks, in some order. */
  datatype Event = Request(key: string, minutes: nat) | TickEvent(sample: Sample)

  function Handle(c: Core, e: Event, now: nat): Core {
    match e
    case Request(key, minutes) => AddExtension(c, key, minutes, now).0
    case TickEvent(sample) => TickCore(c, now, sample)
  }

  function HandleAll(c: Core, events: seq<Event>, now: nat): Core {
    if events == [] then c else Handle(HandleAll(c, events[..|events| - 1], now), events[|events| - 1], now)
  }

  /** The state after a timeline whose k-th entry is handled at second `from + k`. */
  function After(c: Core, from: nat, timeline: seq<seq<Event>>): Core {
    if timeline == [] then c
    else
      var n := |timeline| - 1;
      HandleAll(After(c, from, timeline[..n]), timeline[n], from + n)
  }

  /** The number of seconds of the timeline during which the slot was exempt. */
  function ExemptSecs(c: Core, from: nat, timeline: seq<seq<Event>>, slot: Slot): nat {
    if timeline == [] then 0
    else
      var n := |timeline| - 1;
      ExemptSecs(c, from, timeline[..n], slot)
      + (if from + n < UntilOf(After(c, from, timeline).budget, slot) then 1 else 0)
  }

  function Remaining(b: Budget, slot: Slot, now: nat): nat {
    if now < UntilOf(b, slot) then UntilOf(b, slot) - now else 0
  }

  /** The seconds already exempt and those still to run add up to the minutes granted, within the cap. */
  ghost predicate Balanced(b: Budget, slot: Slot, exempt: nat, now: nat) {
    && GrantedTo(b, slot) <= EXTENSION_CAP
    && exempt + Remaining(b, slot, now) == 60 * GrantedTo(b, slot)
  }

  lemma GrantKeepsBalance(c: Core, key: string, minutes: nat, now: nat, slot: Slot, exempt: nat)
    requires Balanced(c.budget, slot, exempt, now)
    ensures Balanced(AddExtension(c, key, minutes, now).0.budget, slot, exempt, now)
    ensures AddExtension(c, key, minutes, now).0 == c.(budget := AddExtension(c, key, minutes, now).0.budget)
  {
    hide SlotOf, GroupOfMember, HasApp;
  }

  lemma TickKeepsBudget(c: Core, t: Tick)
    requires NoReset(c, t.now)
    ensures Next(c, t).budget == c.budget && Next(c, t).cfg == c.cfg && Next(c, t).lastDay == c.lastDay
  {
    hide Maintain, Accumulate;
  }

  lemma {:induction false} EventsKeepBalance(c: Core, events: seq<Event>, now: nat, slot: Slot, exempt: nat)
    requires Balanced(c.budget, slot, exempt, now)
    requires forall e | e in events && e.TickEvent? :: NoReset(c, now)
    ensures var r := HandleAll(c, events, now);
      Balanced(r.budget, slot, exempt, now) && r.cfg == c.cfg && r.lastDay == c.lastDay
  {
    hide AddExtension, TickCore, Balanced;
    if events == [] {
    } else {
      var n := |events| - 1;
      var before := HandleAll(c, events[..n], now);
      EventsKeepBalance(c, events[..n], now, slot, exempt);
      match events[n]
      case Request(key, minutes) => GrantKeepsBalance(before, key, minutes, now, slot, exempt);
      case TickEvent(sample) =>
        assert events[n] in events;
        TickKeepsBudget(before, Tick(now, sample));
    }
  }

  /** No tick of the timeline finds a new date. */
  ghost predicate NoResets(c: Core, from: nat, timeline: seq<seq<Event>>) {
    forall k, e | 0 <= k < |timeline| && e in timeline[k] && e.TickEvent? :: NoReset(c, from + k)
  }

  lemma SecondKeepsBalance(b: Budget, slot: Slot, exempt: nat, now: nat)
    requires Balanced(b, slot, exempt, now)
    ensures Balanced(b, slot, exempt + (if now < UntilOf(b, slot) then 1 else 0), now + 1)
  {}

  /** From one daily reset to the next, for every uid and every group and whatever the order and
      overlap of the grants, exempt seconds elapsed plus seconds still to run equal sixty times the
      minutes granted. */
  lemma {:induction false} ExtensionsAreConserved(c: Core, from: nat, timeline: seq<seq<Event>>, slot: Slot)
    requires c.budget == EMPTY_BUDGET && NoResets(c, from, timeline)
    ensures var r := After(c, from, timeline);
      && Balanced(r.budget, slot, ExemptSecs(c, from, timeline, slot), from + |timeline|)
      && r.cfg == c.cfg && r.lastDay == c.lastDay
  {
    hide HandleAll, UntilOf, Balanced;
    EmptyIsBalanced(slot, from);
    if timeline == [] {
    } else {
      var n := |timeline| - 1;
      ExtensionsAreConserved(c, from, timeline[..n], slot);
      var before, exempt := After(c, from, timeline[..n]), ExemptSecs(c, from, timeline[..n], slot);
      forall e | e in timeline[n] && e.TickEvent? ensures NoReset(before, from + n) {
        assert NoReset(c, from + n);
      }
      EventsKeepBalance(before, timeline[n], from + n, slot, exempt);
      SecondKeepsBalance(After(c, from, timeline).budget, slot, exempt, from + n);
    }
  }

  lemma EmptyIsBalanced(slot: Slot, now: nat)
    ensures Balanced(EMPTY_BUDGET, slot, 0, now)
  {}

  /** At most two hours of exemption between resets. */
  lemma AtMostTwoHoursExempt(c: Core, from: nat, timeline: seq<seq<Event>>, slot: Slot)
    requires c.budget == EMPTY_BUDGET && NoResets(c, from, timeline)
    ensures ExemptSecs(c, from, timeline, slot) <= 7200
  {
    hide After, ExemptSecs;
    ExtensionsAreConserved(c, from, timeline, slot);
  }

  // ---------- what is granted is what was asked for ----------

  /** A request for the key reaches the slot: the key has an app rule or is in no group, and it is an app's
      key for the uid, or else the id of the group. */
  predicate IsFor(cfg: Config, key: string, slot: Slot) {
    && ((exists a | a in cfg.rules.apps :: a.key == key) || forall g | g in cfg.rules.groups :: key !in g.members)
    && match slot
       case UidSlot(uid) => key in cfg.uidOf && cfg.uidOf[key] == uid
       case GroupSlot(id) => key == id && key !in cfg.uidOf && exists g | g in cfg.rules.groups :: g.id == id
  }

  /** The minutes requested for the slot within a second. */
  function Asked(cfg: Config, events: seq<Event>, slot: Slot): nat {
    if events == [] then 0
    else
      var e := events[|events| - 1];
      Asked(cfg, events[..|events| - 1], slot)
      + (if e.Request? && IsFor(cfg, e.key, slot) then e.minutes else 0)
  }

  function AskedOver(cfg: Config, timeline: seq<seq<Event>>, slot: Slot): nat {
    if timeline == [] then 0
    else AskedOver(cfg, timeline[..|timeline| - 1], slot) + Asked(cfg, timeline[|timeline| - 1], slot)
  }

  /** The first group with the key among its members. */
  ghost predicate FirstGroup(groups: seq<GroupRule>, key: string, k: nat) {
    k < |groups| && key in groups[k].members && forall j | 0 <= j < k :: key !in groups[j].members
  }

  lemma {:induction false} GroupOfMemberIs(groups: seq<GroupRule>, key: string)
    ensures match GroupOfMember(groups, key)
      case Some(id) => exists k: nat :: FirstGroup(groups, key, k) && groups[k].id == id
      case None => forall g | g in groups :: key !in g.members
  {
    if groups == [] {
    } else if key in groups[0].members {
      assert FirstGroup(groups, key, 0);
    } else {
      GroupOfMemberIs(groups[1..], key);
      if GroupOfMember(groups, key).Some? {
        var k: nat :| FirstGroup(groups[1..], key, k) && groups[1..][k].id == GroupOfMember(groups, key).value;
        assert FirstGroup(groups, key, k + 1);
      }
    }
  }

  lemma SlotIsFor(cfg: Config, key: string, slot: Slot)
    ensures SlotOf(cfg, key) == Some(slot) <==> IsFor(cfg, key, slot)
  {
    var groups := cfg.rules.groups;
    GroupOfMemberIs(groups, key);
    hide GroupOfMember;
    if k: nat :| FirstGroup(groups, key, k) {
      assert groups[k] in groups;
    }
    AppIsThere(cfg.rules.apps, key);
  }

  lemma AppIsThere(apps: seq<AppRule>, key: string)
    ensures HasApp(apps, key) <==> exists a | a in apps :: a.key == key
  {
    if a :| a in apps && a.key == key {
      var i :| 0 <= i < |apps| && apps[i] == a;
    }
    if HasApp(apps, key) {
      var i :| 0 <= i < |apps| && apps[i].key == key;
      assert apps[i] in apps;
    }
  }

  /** The key is a member of a group and has no app rule. */
  predicate IsManaged(cfg: Config, key: string) {
    (forall a | a in cfg.rules.apps :: a.key != key) && exists g | g in cfg.rules.groups :: key in g.members
  }

  predicate IsGroup(cfg: Config, key: string) {
    exists g | g in cfg.rules.groups :: g.id == key
  }

  /** The slot got the minutes, its exemption starts when the one before ends, and nothing else changed. */
  ghost predicate Extended(c: Core, e: Core, slot: Slot, minutes: nat, now: nat) {
    && GrantedTo(e.budget, slot) == GrantedTo(c.budget, slot) + minutes
    && UntilOf(e.budget, slot) == Max(UntilOf(c.budget, slot), now) + 60 * minutes
    && (forall other: Slot | other != slot ::
          && GrantedTo(e.budget, other) == GrantedTo(c.budget, other)
          && UntilOf(e.budget, other) == UntilOf(c.budget, other))
    && e == c.(budget := e.budget)
  }

  /** Every answer: a request that reaches a slot is granted as many of its minutes as are left of 120,
      and refused when none is; a member of a group without an app rule is referred to the first such
      group; any other key is unknown. A refusal changes nothing. */
  lemma EveryAnswer(c: Core, key: string, minutes: nat, now: nat)
    ensures var (e, answer) := AddExtension(c, key, minutes, now);
      && (forall slot | IsFor(c.cfg, key, slot) :: var used := GrantedTo(c.budget, slot);
            if used >= 120 then answer == LimitReached && e == c
            else answer == Granted(Min(minutes, 120 - used)) && Extended(c, e, slot, Min(minutes, 120 - used), now))
      && (answer.ManagedByGroup? <==> IsManaged(c.cfg, key))
      && (answer == UnknownKey <==> !IsManaged(c.cfg, key) && key !in c.cfg.uidOf && !IsGroup(c.cfg, key))
      && (answer.ManagedByGroup? ==>
            exists k: nat :: FirstGroup(c.cfg.rules.groups, key, k) && answer.id == c.cfg.rules.groups[k].id)
      && (answer.ManagedByGroup? || answer == UnknownKey ==> e == c)
  {
    hide IsFor, HasApp, GroupOfMember;
    GroupOfMemberIs(c.cfg.rules.groups, key);
    AppIsThere(c.cfg.rules.apps, key);
    forall slot ensures SlotOf(c.cfg, key) == Some(slot) <==> IsFor(c.cfg, key, slot) {
      SlotIsFor(c.cfg, key, slot);
    }
  }

  lemma RequestGrants(c: Core, key: string, minutes: nat, now: nat, slot: Slot)
    requires GrantedTo(c.budget, slot) <= 120
    ensures GrantedTo(AddExtension(c, key, minutes, now).0.budget, slot)
         == Min(120, GrantedTo(c.budget, slot) + (if IsFor(c.cfg, key, slot) then minutes else 0))
  {
    hide IsFor, SlotOf;
    SlotIsFor(c.cfg, key, slot);
  }

  lemma {:induction false} EventsGrant(c: Core, events: seq<Event>, now: nat, slot: Slot, exempt: nat)
    requires Balanced(c.budget, slot, exempt, now)
    requires forall e | e in events && e.TickEvent? :: NoReset(c, now)
    ensures GrantedTo(HandleAll(c, events, now).budget, slot)
         == Min(120, GrantedTo(c.budget, slot) + Asked(c.cfg, events, slot))
  {
    hide AddExtension, TickCore, IsFor, GrantedTo;
    if events == [] {
    } else {
      var n := |events| - 1;
      var before := HandleAll(c, events[..n], now);
      EventsGrant(c, events[..n], now, slot, exempt);
      EventsKeepBalance(c, events[..n], now, slot, exempt);
      match events[n]
      case Request(key, minutes) => RequestGrants(before, key, minutes, now, slot);
      case TickEvent(sample) =>
        assert events[n] in events;
        TickKeepsBudget(before, Tick(now, sample));
    }
  }

  /** From one daily reset to the next every slot is granted exactly the minutes requested for it, up to
      120, whatever else is requested and however the requests are spread. */
  lemma {:induction false} GrantsAreAsked(c: Core, from: nat, timeline: seq<seq<Event>>, slot: Slot)
    requires c.budget == EMPTY_BUDGET && NoResets(c, from, timeline)
    ensures GrantedTo(After(c, from, timeline).budget, slot) == Min(120, AskedOver(c.cfg, timeline, slot))
  {
    hide HandleAll, Balanced, GrantedTo, Asked;
    if timeline == [] {
      NothingGranted(slot);
    } else {
      var n := |timeline| - 1;
      GrantsAreAsked(c, from, timeline[..n], slot);
      ExtensionsAreConserved(c, from, timeline[..n], slot);
      var before, exempt := After(c, from, timeline[..n]), ExemptSecs(c, from, timeline[..n], slot);
      forall e | e in timeline[n] && e.TickEvent? ensures NoReset(before, from + n) {
        assert NoReset(c, from + n);
      }
      EventsGrant(before, timeline[n], from + n, slot, exempt);
    }
  }

  lemma NothingGranted(slot: Slot)
    ensures GrantedTo(EMPTY_BUDGET, slot) == 0
  {}
}
