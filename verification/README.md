# A Dafny model of the Ningshi daemon

Ningshi keeps chosen Android apps from running. A daemon reads a rules file (always-on, lock-screen,
time-window and duration rules, for single apps and for groups), works out which uids are blocked at
this moment, puts them into a kernel block map, and kills the processes of blocked apps that the kernel
reports. This project models the daemon's rule engine, its adaptive schedule and the userspace side of
its gate, and proves what they keep over whole runs.

`dafny verify dfyconfig.toml` checks everything.

| file | part of the daemon |
|---|---|
| `Rules.dfy`, `Sorting.dfy` | rules file, clock times, `sanitize` |
| `Calendar.dfy` | civil time in a fixed offset: absolute seconds plus a whole-hour offset |
| `Windows.dfy`, `Decision.dfy` | window membership, its next flip, the decision of one rule set |
| `Wake.dfy`, `Schedule.dfy` | how long the main loop sleeps, and the reference that ticks every second |
| `EngineState.dfy` | the engine's state as a value and the specification of every operation on it |
| `Engine.dfy` | the engine as a class; each method is proved against that specification |
| `Daemon.dfy` | start-up and the main loop that drives the engine |
| `Wants.dfy` | which rule decides about a uid and which names identify it |
| `Meaning.dfy` | when the rules block a uid, read off rules, uid map, counters and calendar |
| `Cooldowns.dfy`, `Starts.dfy`, `Usage.dfy`, `Extensions.dfy` | cooldown cycle, usage counters, extension budget over whole runs |
| `Migration.dfy` | packages whose uid changed |
| `Restart.dfy`, `RulesStore.dfy` | the saved state across restarts; live file, last good copy, default |
| `Packages.dfy`, `Foreground.dfy`, `Cmdline.dfy` | uid map, uid sampling, a process's own name |
| `Gate.dfy` | block list with mirror, drain thread filter, identity check, killer pass |
| `KillProtocol.dfy` | the kill path as interleaved steps of kernel, engine, drain thread and killer thread |
| `KillEvents.dfy`, `KillHistory.dfy` | the event every entry and kill goes back to; what a kill says about the states of the run before it |
| `KillIdentity.dfy` | from the rules' verdicts to the packages of killed processes |
| `Undisturbed.dfy`, `Arrivals.dfy` | without interference: the protocol's pass is the killer's in-place pass; from a reported event to its kill |

The clock, the foreground and process samples, the screen state, files and the package list are
parameters. Hash maps are iterated in an arbitrary order. For which uids block map updates work, whether a
file write works, and how the killer's open, poll, read and signal calls turn out are inputs too; closing a descriptor always works.

## Where the code is weaker than its text

In this section the daemon's README is the file `README.md` of the daemon's own repository.

- The comment at `daemon/src/engine.rs:1083` says that every window flips within two days. That is false
  for windows with weekdays (`Windows.TwoDayClaimFails`) and for windows of every day that fill the day or
  lie beyond it, such as 00:00 to 24:00 (`Windows.EveryDayClaimFails`). `Windows.FlipsWithinTwoDaysIff` gives
  the exact condition for every window, a test on its times, its weekday list and the current minute.
  Nothing goes wrong, because the sleep is capped at 300 seconds (`Wake.NoMissedChange`).
- The daemon's README (line 95) says that a file claiming a newer schema is refused. The version is compared in the
  `apply` command only; the same file found as the live file is taken over
  (`RulesStore.NewerSchemaIsLoaded`, at one input `RulesStore.VersionTwoIsLoaded`).
- `daemon/src/engine.rs:283` says that today's state survives a restart. The saved date is compared while
  the engine's clock is still in UTC, so it survives exactly when the local and the UTC date agree
  (`Restart.StateSurvivesIff`, `Restart.SaveThenRestart`); otherwise a used-up budget is granted again
  (`Restart.RestartCanLoseTheDay`).
- `daemon/src/rules.rs:165` says that dropping invalid weekdays removes values that never match. A list of
  only invalid weekdays becomes an empty list, which means every day. `Decision.SanitizeWindowIff` says
  for which windows the meaning is kept.
- The daemon's README (line 100) says that a process must carry a blocked name. A process none of whose names could be
  read in twenty tries is killed as well (`GateThreads.IdentityOk`, `KillHistory.KillsAreGrounded`, at one input `Undisturbed.NamelessIsKilled`).
- `daemon/src/engine.rs:671-672` says that per-uid state moves with a changed uid. Usage and extensions
  follow a key for all entries and all orders exactly when every other moving key makes the same move or has
  no uid in common with it (`Migration.FollowsIff`); two keys that swap uids lose one of their counters
  (`Migration.SwapLosesUsage`). A budget or cooldown follows exactly when both uids had the same before
  (`Migration.BudgetFollowsIff`). So the daily cap starts again after a move: at one input a package is
  exempt for four hours on end (`Migration.FourHoursExempt`).
- The daemon's README (line 95) says that the last good copy is used when the live file becomes unreadable.
  When the live file is missing at start-up the copy's rules apply, but no reload follows
  (`daemon/src/engine.rs:719-726`, `Daemon.StartWithoutLiveFile`), and its zone and the protected packages are
  in force exactly when there is a reload or nothing to take over (`Daemon.StartIff`). At one input the
  daemon starts on the wrong date (`Daemon.StartOnTheWrongDay`).

## Model

| member | source | states |
|---|---|---|
| Windows.WindowMeaning | daemon/src/engine.rs:975-1009 | A minute is inside a window exactly when some day with an allowed weekday opens an absolute interval that contains it; intervals may run over midnight and are empty for equal times |
| Windows.WindowEdgeSecs | daemon/src/engine.rs:1076-1102 | The minute walk with its inlined copy of the window test returns what the search over the engine's own test returns |
| Windows.EdgeIsFirstFlip | daemon/src/engine.rs:1073-1102 | An edge of s seconds: membership differs at that second and at no earlier one; no edge: membership is constant over the whole search range |
| Windows.EveryDayFlipsWithinADay | daemon/src/engine.rs:1083-1102 | A window of every day with two distinct clock times always has an edge, at most a day away |
| Windows.FlipsWithinTwoDaysIff | daemon/src/engine.rs:1083-1102 | Exactly when the two-day search finds an edge, for every window: it can be open, and either it fills whole days that differ or an edge of an allowed day lies in range |
| Windows.TwoDayClaimFails | daemon/src/engine.rs:1083-1084 | A Monday window seen on a Tuesday has no edge in range although it opens six days later |
| Windows.EveryDayClaimFails | daemon/src/engine.rs:1083-1084 | Every-day windows 00:00-24:00 and 25:00-26:00 are always and never open and have no edge at any time |
| Rules.ClockTime | daemon/src/engine.rs:1112-1119 | For every text: the hours before the first colon times 60 plus the minutes after it, a part that is not a decimal number of 32 bits counting 0, and 0 without a colon |
| Decision.SanitizeWindowIff | daemon/src/rules.rs:165-180 | Sanitizing keeps a window's meaning exactly when its weekday list is empty, keeps a valid day, or the window never opens |
| Decision.SanitizeKeepsEval | daemon/src/engine.rs:925-971 | If every window keeps its meaning, the decision is the same for every minute, weekday and flag |
| Decision.SanitizeChangesEval | daemon/src/rules.rs:165-180 | A list of only invalid weekdays changes the decision |
| Rules.SanitizeDaysSpec | daemon/src/rules.rs:174-178 | Retain, sort and dedup give exactly the valid weekdays of the list in calendar order |
| Rules.SanitizeIdempotent | daemon/src/rules.rs:167-180 | Sanitizing a rules file twice is sanitizing it once |
| Rules.Sanitize | daemon/src/rules.rs:167-180 | The in-place edit changes the weekday list of every window of every app and group, and nothing else |
| Rules.SanitizeSet | daemon/src/rules.rs:173-179 | The inner loop over one rule set's windows |
| Rules.SanitizedIs | daemon/src/rules.rs:167-180 | Every window of every app and of every group keeps its times and gets its valid weekdays in calendar order; every other field of the file is as before |
| Rules.EnabledSetsIff | daemon/src/engine.rs:607-615 | The enabled rule sets are those of enabled apps and enabled groups, and no others |
| Wake.NextWakeSecs | daemon/src/engine.rs:1025-1071 | In every zone the sleep is 15, 60 or 300 seconds as rules and blocks ask for, or ends before that at the first second at which the date changes, a deadline passes or a window of an enabled rule flips |
| Wake.ScanSets | daemon/src/engine.rs:1038-1056 | The pass over enabled rule sets finds their cadence and their earliest window edge |
| Wake.NextWakeIsLeast | daemon/src/engine.rs:1025-1071 | No reason to wake comes before the chosen sleep ends; what the reasons are in time is `Wake.SleepIsExact` |
| Wake.SleepIsExact | daemon/src/engine.rs:1025-1071 | The least of the delays is at least a second and at most the cadence; nothing is due before it ends, and unless it is the cadence something is due when it ends |
| Wake.MidnightIsNewDate | daemon/src/engine.rs:1068-1070 | The delay to midnight ends at the first second of the next local date |
| Wake.NoMissedChange | daemon/src/engine.rs:642-669 | At every second before the wake-up the date is the same, no deadline has passed, and every enabled rule set decides the same for the same samples |
| Calendar.SecondOfMinute | daemon/src/engine.rs:667 | With a whole-hour offset the epoch gives the second within the local minute |
| Calendar.CivilTime | daemon/src/engine.rs:802-819 | Under every zone setting the epoch plus the offset is 86400 times the date plus 60 times the minute plus the second |
| Calendar.WeekdaysGoRound | daemon/src/engine.rs:802-819 | Day 0 is a Thursday and weekdays go round from Monday to Sunday |
| Schedule.TickInterval | daemon/src/engine.rs:648-669 | Every extension and cooldown deadline and nothing else goes into the schedule, and the sleep ends at the cadence or at the first second at which the local date changes, one of those deadlines passes or an enabled window flips |
| Schedule.SameWantUntilWake | daemon/src/engine.rs:642-669 | Until the wake-up the whole wanted state, for any rules, is that of the last tick |
| Schedule.TimeOnlyTick | daemon/src/engine.rs:383-590 | Under rules without limit and lock block a tick only resets the day and records its time |
| Schedule.SleepingTickIsIdle | daemon/src/engine.rs:642-669 | While the loop sleeps, the tick that the reference makes changes neither state nor blocked set |
| Daemon.Turn | daemon/src/main.rs:188-219 | One turn of the loop on the engine ticks exactly when it is time or a request was granted, and then sleeps until the next second at which something is due; it leaves the state of the reference step even if the tick fails, and the wanted set blocked if the last tick succeeded; a tick made with updates that all work succeeds, and the next comes within 300 seconds |
| Daemon.RunDaemon | daemon/src/main.rs:183-219 | For time-only rules, any requests, any starting state and any failing updates, the state is the reference's and every settled second ends with the blocked set of ticking every second; a second is settled whenever all updates have worked since the start or for 300 seconds, so with updates that work the whole trace is the reference's, across midnight |
| Daemon.RunTicking | daemon/src/main.rs:211-218 | For any rules, an engine ticked with updates that work blocks after each tick exactly what it wants, and so every uid governed by a cooldown that runs until after it |
| Daemon.StartDaemon | daemon/src/main.rs:163-170 | State, blocked set, outcome and saved file after start-up and first tick for whatever that tick finds; it blocks exactly the wanted uids when its reads and updates work; with a live file it is the start-up of the restart results |
| Daemon.StartIff | daemon/src/engine.rs:719-726 | Zone and clock of the rules in force apply after the first tick exactly when it reloads or they set none or offset zero, and the protected packages exactly when it reloads |
| Daemon.StartWithoutLiveFile | daemon/src/engine.rs:719-726 | On the last good copy with no live file the first tick leaves the clock in UTC and no package protected |
| Daemon.StartOnTheWrongDay | daemon/src/engine.rs:719-726 | With UTC+8 in the last good copy and no live file the date is wrong at 20:00 UTC |
| Wants.WantRefinesGoverning | daemon/src/engine.rs:478-527 | The wanted state of a uid is the decision of the last group that contains it, else of its last app rule, else absent; what that decision is says `Meaning.BlockedIff` |
| Meaning.BlockedIff | daemon/src/engine.rs:478-527 | A tick wants a uid blocked exactly when the last group with it among its members, or else the last app rule about it, is enabled, has no extension running, and is always on, or locks with the screen off, or cools down, or its counted seconds (of the whole pool for a shared pool) reach 60 times a positive limit, or its windows block at this absolute minute; stated on rules, uid map, counters and calendar only |
| Meaning.EvalMeans | daemon/src/engine.rs:925-971 | One rule set blocks exactly when no extension runs and one of those five parts does |
| Meaning.WindowsMean | daemon/src/engine.rs:955-968 | Some window contains now exactly when some window, opened on some day, covers the absolute local minute |
| Meaning.PoolSecsIsPooled | daemon/src/engine.rs:728-754 | Pooled usage is the sum over the members that resolve, each counted by the rule's scope |
| Meaning.NamesIff | daemon/src/engine.rs:478-532 | The name index lists for a uid exactly the packages on whose account some app rule or group demands a block of it |
| Meaning.ProtectedIsNeverBlocked | daemon/src/engine.rs:917-921 | A uid all of whose keys name protected packages is never wanted blocked |
| Wants.OneGroupDecides | daemon/src/engine.rs:501-527 | A uid in exactly one group is decided by that group whatever app rules exist |
| Wants.OneAppDecides | daemon/src/engine.rs:481-500 | An ungrouped uid with one app key is decided by that app rule |
| Wants.BlockIndexSpec | daemon/src/engine.rs:478-532 | The index lists per uid exactly the package names of its blocking verdicts, ascending and without duplicates |
| Wants.BlockedUidsAreNamed | daemon/src/engine.rs:478-532 | Every uid to block is an app uid of an unprotected key and has a nonempty name list |
| Cooldowns.MaintenanceSettlesAll | daemon/src/engine.rs:433-466 | After the maintenance loops every enabled rule with limit and cooldown is cooling down or strictly below its limit, for any overlap of apps, groups, pools and uids |
| Cooldowns.TickOnMeter | daemon/src/engine.rs:407-466 | For a uid under one cooldown rule a whole tick is one accounting step and one cycle step, however often the rule lists it |
| Cooldowns.CooldownHolds | daemon/src/engine.rs:433-527 | Over any run within a day a running cooldown, of a uid or of a pool, keeps its deadline whatever rules overlap, and every tick before it leaves each uid it governs blocked unless an extension runs at that tick |
| Cooldowns.CooldownEnds | daemon/src/engine.rs:756-773 | The tick that finds a uid's cooldown expired zeroes its usage and starts no other, whatever rules overlap |
| Cooldowns.PoolCooldownEnds | daemon/src/engine.rs:775-800 | The tick that finds a pool's cooldown expired zeroes every member and starts no other |
| Cooldowns.PoolJobsInOrder | daemon/src/engine.rs:445-466 | The pools are maintained in the key order of their groups, each at most once |
| Starts.CooldownStarts | daemon/src/engine.rs:766-772 | A uid's cooldown starts exactly when the usage including this tick has reached the limit of one of its rules, with that rule's length, whatever else overlaps |
| Starts.FirstRuleSetsDeadline | daemon/src/engine.rs:433-466 | When several rules of a uid reach their limits at once the first app rule in key order sets the deadline, else the first group that does not pool; when none does no cooldown starts |
| Starts.PoolCooldownStarts | daemon/src/engine.rs:788-799 | A pool's cooldown starts exactly when the pooled usage that the jobs before it leave, this tick included, has reached the limit, with the configured length; when no other cooldown of a member ends that is the usage including this tick, and the members keep it |
| Starts.MidnightEndsCooldowns | daemon/src/engine.rs:390-405 | After the first tick of a new date every counter holds this tick's time only, and exactly the uids and pools whose limit that reaches cool down, from now |
| Starts.StartsArePaidFor | daemon/src/engine.rs:756-800 | Over any run within a day, for a uid or a pool, starts times the limit never exceed the time counted and accounted, under every scope and whatever rules overlap |
| Usage.MaintainKeepsUsage | daemon/src/engine.rs:433-466 | Usage is zeroed by nothing but a cooldown of the uid or of one of its pools that has run out |
| Usage.UsageIsExact | daemon/src/engine.rs:407-431 | Between a reset or cooldown end and the next, the running counter of a uid grows by exactly the tick intervals at whose end it owned a listed process, and the foreground counter by those at whose end it owned one of the foreground group, if some enabled app or group rule with a limit has a key or member that resolves to it; the cap truncates nothing when ticks are at most a minute apart |
| Usage.TickCounts | daemon/src/engine.rs:407-431 | A tick adds its elapsed seconds, at most 60 and none at first or when the clock went back, to the foreground counter of a uid exactly if a limit concerns it and a foreground process is its own, and to the running counter exactly if moreover some limit counts more than foreground time and a listed process is its own |
| Cooldowns.SamplesAre | daemon/src/fg.rs:41-87 | The uids sampled as running and as in the foreground, read off the rules, the uid map and the sample |
| Usage.OnScheduleIsPaced | daemon/src/engine.rs:1043-1046 | While some rule has a limit, ticks at most 45 seconds later than each state's schedule are at most a minute apart |
| Usage.UsageIsExactOnSchedule | daemon/src/main.rs:211-218 | Ticking on schedule, each counter grows by exactly the sampled tick intervals |
| Usage.ScheduleStaysBelowCap | daemon/src/engine.rs:1043-1046 | While some enabled rule has a limit the schedule stays below that minute |
| Usage.TickKeepsFgWithinAny | daemon/src/engine.rs:746-754 | While live uids are scanned foreground time never exceeds running time, so background time is their exact difference |
| Usage.RunKeepsFgWithinAny | daemon/src/engine.rs:407-466 | The same over any run, across resets |
| Extensions.ExtensionsAreConserved | daemon/src/engine.rs:855-906 | From one reset to the next, for every uid and group and any order and overlap of grants and ticks, exempt seconds elapsed plus seconds to run equal 60 times the minutes granted |
| Extensions.AtMostTwoHoursExempt | daemon/src/engine.rs:855-906 | No uid or group is exempt for more than 7200 seconds between resets |
| Extensions.GrantsAreAsked | daemon/src/engine.rs:855-906 | From one reset to the next every uid and every group is granted exactly the minutes requested for it, up to 120, whatever else is requested in between |
| Extensions.EveryAnswer | daemon/src/engine.rs:855-915 | For every key: the minutes granted are the least of those asked for and those left of 120, refused exactly when none is left; a group member without an app rule is referred to the first group with it; another key is unknown exactly when it is neither an app key nor a group id; a grant changes that slot only, a refusal nothing |
| Restart.StateSurvivesIff | daemon/src/engine.rs:283-309 | If the saved date is today's in UTC and locally, installed uids have their saved usage unless a cooldown has run out, and all saved deadlines still ahead and budgets are in force; otherwise all counters are empty; extensions never survive |
| Restart.NothingFromAnotherDay | daemon/src/engine.rs:390-405 | After the first tick with a file of another local date every counter, cooldown and budget is empty |
| Restart.SaveThenRestart | daemon/src/engine.rs:311-334 | Saving and restarting on one local date keeps usage, deadlines and budgets exactly when that is also the UTC date, and else leaves them empty |
| Restart.RestartCanLoseTheDay | daemon/src/engine.rs:294-299 | A concrete restart that gives a used-up extension budget back |
| EngineState.SameGroupsToggleNothing | daemon/src/engine.rs:361-377 | Reloading unchanged groups drops no cooldown |
| EngineState.ToggleDropsExactly | daemon/src/engine.rs:361-377 | A reload drops exactly the cooldowns of the groups that were there with the other pooling mode and of the uids of their members now; usage stays |
| RulesStore.RulesAreLastGood | daemon/src/engine.rs:214-281 | After one good load, any mix of applies, corrupt or missing files, reloads and restarts leaves the sanitized latest rules seen to parse, never the default |
| RulesStore.FirstLoadHolds | daemon/src/engine.rs:216-223 | A first load of a parsing file establishes that state |
| RulesStore.LoadIff | daemon/src/engine.rs:214-242 | A load takes the live file if it parses, else the last good copy if that parses, else no rules at all; a reload does the same unless good rules are in force and the live file does not parse |
| RulesStore.ApplyIsAllOrNothing | daemon/src/engine.rs:252-275 | An apply installs exactly the sanitized candidate or leaves memory and disk untouched; exactly when it does not parse, has a version above 1 or cannot be written |
| RulesStore.NewerSchemaIsLoaded | daemon/src/engine.rs:258-263 | A newer file that an apply refuses is taken over by a reload |
| RulesStore.VersionTwoIsLoaded | daemon/src/engine.rs:258-263 | A concrete file of version 2, refused by an apply, is in force after a reload |
| EngineClass.Engine.constructor | daemon/src/engine.rs:180-213 | A new engine has an empty block list, the rules found on disk, and the state restored by a UTC clock |
| EngineClass.Engine.LoadRules | daemon/src/engine.rs:214-242 | Live file, else last good copy, else default; only a good live file refreshes the copy |
| EngineClass.Engine.Reload | daemon/src/engine.rs:336-380 | The whole new configuration, which cooldowns a pooling toggle drops, and where an unreadable package list stops it |
| EngineClass.Engine.ApplyRulesFile | daemon/src/engine.rs:249-281 | The method meets the all-or-nothing specification, failing writes included, and reports success exactly when the uid map could be read too |
| EngineClass.Engine.LoadState | daemon/src/engine.rs:283-309 | Restores a state file of today's date by the current clock, whole or not at all |
| EngineClass.Engine.SaveState | daemon/src/engine.rs:311-334 | The file holds the whole saved part of the state if the write works, and is the previous one if not |
| EngineClass.Engine.SyncPackages | daemon/src/engine.rs:671-717 | The whole state after the sync, for some order of the keys: keys move one after the other, then uninstalled uids lose everything |
| Migration.FollowsIff | daemon/src/engine.rs:691-707 | A key's entry follows it for all entries and all orders exactly when every other moving key makes the same move or has no uid in common with it |
| Migration.MovedKeyBrings | daemon/src/engine.rs:691-707 | Such a key brings its usage and running extension to its new uid, in any order; budget and cooldown stay behind |
| Migration.UntouchedKeeps | daemon/src/engine.rs:691-714 | An installed uid that no key moves from or to keeps everything |
| Migration.UninstalledIsForgotten | daemon/src/engine.rs:708-714 | A uid that no installed package has keeps no usage, extension, budget or cooldown, so a package with a recycled uid inherits none |
| Migration.BudgetFollowsIff | daemon/src/engine.rs:705-714 | Any key finds its old budget or cooldown at its new uid exactly when both uids had the same |
| Migration.CapRestartsAfterMove | daemon/src/engine.rs:703-713 | After a move a full budget is granted on top of the extension still running |
| Migration.FourHoursExempt | daemon/src/engine.rs:703-713 | A concrete package is exempt for 14400 seconds on end |
| Migration.SwapLosesUsage | daemon/src/engine.rs:691-702 | Of two keys that swap uids one loses its usage, and which one depends on the order |
| EngineClass.Engine.ResetDay | daemon/src/engine.rs:390-405 | The reset acts on a new date only and clears all counters, cooldowns, extensions and budgets |
| EngineClass.Engine.AccumulateUsage | daemon/src/engine.rs:407-431 | Every uid's two counters gain exactly the seconds that `Usage.TickCounts` says, once each |
| EngineClass.Engine.MaintainUidCooldown | daemon/src/engine.rs:756-773 | The per-uid cooldown step |
| EngineClass.Engine.MaintainGroupCooldown | daemon/src/engine.rs:775-800 | The pooled cooldown step, zeroing every member |
| EngineClass.Engine.MaintainCooldowns | daemon/src/engine.rs:433-466 | All jobs, per uid before per pool, in key order |
| EngineClass.Engine.ComputeWant | daemon/src/engine.rs:478-532 | The two passes want exactly the uids blocked whose governing rule demands it, in the terms of `Meaning.BlockedIff`, and compute the sorted name index |
| EngineClass.Engine.ApplyTransitions | daemon/src/engine.rs:534-565 | In any hash order the engine's list, the block map and the mirror stay equal and every uid is as before or as wanted; it succeeds exactly when every update that has to be made works, and then exactly the wanted uids are blocked |
| EngineClass.Engine.Tick | daemon/src/engine.rs:383-590 | Whatever fails, the three block lists agree; a tick succeeds exactly when its inputs can be read and every update it has to make works, and then blocks exactly the uids whose governing rule demands it (`Meaning.BlockedIff`), each with its sorted names; else no block or only wanted changes; the bookkeeping is that of the specification, and a minute after the last time it saves the state |
| EngineClass.Engine.AddExtension | daemon/src/engine.rs:855-906 | The method gives the state and the answer that `Extensions.EveryAnswer` is about |
| Packages.ResolveUids | daemon/src/pm.rs:50-65 | Every key that some line yields is there with the uid of the last line that does, no other key is, and every key carries a package name |
| Packages.KeysForSpec | daemon/src/pm.rs:18-32 | A key's uid belongs to the key's user and keeps the app id |
| Packages.KeysForIff | daemon/src/pm.rs:18-32 | With an app id a package gets one key for every user, with uid 100000 times the user plus the id; with a full uid the one of its user |
| Packages.UserKeysDiffer | daemon/src/pm.rs:24-31 | Keys of different users or different packages are different |
| Packages.PackageOfUserKey | daemon/src/engine.rs:1104-1110 | A key is read back as the package name it was built from |
| Foreground.UidsSnapshot | daemon/src/fg.rs:41-87 | The owners among the targets of the sampled pids; with the live scan, foreground uids are live uids |
| Cmdline.KeyMatchesProcess | daemon/src/proc.rs:79-101 | A rule key and a process's command line yield the same name exactly when they are of the same package, for every user and helper process |
| Cmdline.NamesAreClean | daemon/src/proc.rs:87-101 | A name read from any command line is nonempty and free of separators and outer white space |
| Cmdline.PaddedNameIsRead | daemon/src/proc.rs:87-101 | White space around the first argument makes no difference to the name read |
| GateThreads.Gate.SetBlocked | daemon/src/gate.rs:374-387 | Block map and mirror change together or not at all; it succeeds exactly when the update works and a removed uid was there |
| GateThreads.PkgOfPidWait | daemon/src/proc.rs:109-134 | The first wanted name, else the last name seen, else none exactly when nothing was readable |
| GateThreads.IdentityOk | daemon/src/gate.rs:457-479 | Accepted exactly when names are listed and some read shows one of them or no read shows anything |
| GateThreads.Drain.Batch | daemon/src/gate.rs:325-341 | With pruning, the events sent are those of a filter that never forgets |
| GateThreads.Drain.Run | daemon/src/gate.rs:306-342 | Over all wake-ups of the drain loop together the events sent are those of the filter that never forgets |
| GateThreads.SendsAreSpaced | daemon/src/gate.rs:332-336 | Two sends of one pid are at least five seconds apart |
| GateThreads.SentIff | daemon/src/gate.rs:326-341 | One more ring buffer item is sent on if and only if it is an event and no event of its pid was sent within the last five seconds |
| GateThreads.KillerThread.KillIfBlocked | daemon/src/gate.rs:425-449 | Signals only a listed and identified entry, counts the reason of a skip, and always closes the descriptor once |
| GateThreads.KillerThread.Pass | daemon/src/gate.rs:239-302 | The pass ends, visits every entry once, keeps exactly those still waiting (none aged 300 ms), closes every other descriptor once, and signals exactly the confirmed ones |
| GateThreads.KillerThread.Disconnect | daemon/src/gate.rs:228-238 | At shutdown every pending entry is signalled and closed once |
| KillProtocol.SwapRemoveSpec | daemon/src/gate.rs:249-250 | Removal by swapping removes one occurrence of the entry and nothing else |
| KillProtocol.StepKeepsInv | daemon/src/gate.rs:195-304 | Every step of any thread or of the kernel keeps ownership, pinning and the evidence gathered so far |
| KillProtocol.KillsAreJustified | daemon/src/gate.rs:217-297 | In every interleaving with exits, pid reuse, renames and block list edits, a delivered SIGKILL hits the pinned process, all reads used were of it, its entry's uid was listed when checked, and its name was confirmed or unreadable twenty times; which event the entry is of says `KillEvents.EntriesAreEvents` |
| KillEvents.EntriesAreEvents | daemon/src/gate.rs:206-227 | In every run every pending entry and every kill goes back to an event sent before with its pid and its uid, for which the descriptor was opened on the process that had the pid then, and its age counts from that moment |
| KillHistory.KillsAreGrounded | daemon/src/gate.rs:217-297 | In every run every delivered SIGKILL goes back to an event of its pid and uid, and there are states, with the descriptor open and pinning the process hit, in which that process was in the foreground or 300 ms had passed since the descriptor was opened, the event's uid was on the block list, names were listed for the uid, and the process carried one, or twenty steps of the run read its name and got none |
| KillIdentity.KillsHitBlockedNames | daemon/src/gate.rs:457-479 | When the name index is always the engine's, a killed process was reported by an event of its pid and uid, and if its name could be read it carried the name of a package that a verdict blocked for that uid |
| KillIdentity.KillsHitBlockedPackages | daemon/src/gate.rs:408-424 | A process of a package is killed only if an event reported it and a verdict blocked that very package for the event's uid, or if it could not be read twenty times |
| Undisturbed.VisitRefines | daemon/src/gate.rs:240-301 | Without interference the protocol's steps from one entry to the next are one visit with the fate that its looks determine; the twenty name reads decide as one |
| Undisturbed.UndisturbedPass | daemon/src/gate.rs:239-302 | In every reachable state the undisturbed pass leaves and kills exactly the entries that the in-place pass leaves and signals |
| Arrivals.FateMeans | daemon/src/gate.rs:240-301 | An entry is killed exactly when its process still runs and has its pid, is in the foreground or 300 ms have passed since it was pinned, its uid is on the block list, and its name is a listed one or cannot be read; it is kept exactly when it runs and neither is the case yet |
| Arrivals.ReceivesAll | daemon/src/gate.rs:210-227 | Woken up by an event and not disturbed, the killer leaves one entry for every queued event of an existing process, in order, with the event's pid and uid and a descriptor that pins the process then at that pid, and nothing else changes |
| Arrivals.ReportedIsKilled | daemon/src/gate.rs:206-302 | A reported process that is in the foreground, on the block list and carries a listed name or none that can be read is killed in the pass that follows, whatever else is pending |
| Arrivals.TimedOutIsKilled | daemon/src/gate.rs:279-297 | A pending process in the background is killed by the pass once 300 ms have passed since it was pinned, if it still runs and is a target |
| Undisturbed.NamelessIsKilled | daemon/src/gate.rs:475-477 | A concrete foreground process without a readable name is killed |
| KillProtocol.DescriptorsAreOwned | daemon/src/gate.rs:195-304 | In every run open descriptors are exactly those of pending entries, none is closed twice, and all are closed at thread exit |

## Left out

- EngineClass.Engine.ApplyRulesFile: writing, setting permissions and renaming fail or work as one step; a temporary file left behind is not modelled.
- EngineClass.Engine.ApplyTransitions: the sweep of a newly blocked uid's processes and the kill counts are not modelled; neither changes the block list.
- Daemon.RunDaemon: covers rules without duration limit and lock block and fixed rules and uid map, as sampled rules depend on what happens between samples; for all other rules `Schedule.SameWantUntilWake` covers each sleep and `Daemon.RunTicking` each tick. Which updates work is given per second. Seconds are one clock: the difference between the monotonic and the civil clock is not modelled.
- Starts.StartsArePaidFor: when rules of one uid draw on foreground and on running time, it counts running time and asks that foreground time be within it at first, which holds from every daily reset on.
- Cooldowns.CooldownHolds: is about what ticks want blocked; that the engine blocks it is `Daemon.RunTicking`, and that the wanted state is the same between ticks is `Schedule.SameWantUntilWake`.
- RulesStore.RulesAreLastGood: assumes that the copy to the last good file succeeds; a failed copy keeps an older one.
- Extensions.ExtensionsAreConserved: is for a fixed uid map and no restart; what a move does to the cap is `Migration.CapRestartsAfterMove`, and active extensions are dropped by a restart by design.
- KillProtocol.KillsAreJustified: does not cover the shutdown path, which signals its pending descriptors without checks; that path is in the descriptor results.
- Arrivals.ReportedIsKilled: is for a killer that nothing interferes with and whose calls succeed; what holds under interference is in the results about all runs.
- KillProtocol.DescriptorsAreOwned: covers the killer thread's descriptors only.
- Calendar.SecondOfMinute: zones are whole hours as the setting allows; parsing the setting's text and the 32-bit product of its number are not modelled.
- Cmdline.NamesAreClean: command lines are text; the decoding of bytes that are not valid UTF-8 and white space outside ASCII are not modelled.
- The periodic sweep and the single-pid kill used by it (`daemon/src/clear.rs`, `daemon/src/proc.rs:55-72`), which checks the uid before it pins the process.
- Wrap-around of 32- and 64-bit counters, except in clock times, where it is modelled.
- A clock that goes backwards, apart from the accounting step, which counts no time then.
- Detection of changed files by modification time: whether a tick reloads and what it then reads are inputs.
- Discovery of protected packages, of Android users, of foreground pids and of the screen state: inputs.
- The kernel programs, probe attachment, ring buffer, socket protocol, status, log, inotify, lock file, WebUI and scripts.
- JSON text: a file is unparseable or holds a rules value, and printing then parsing is the identity.
- Mutex poisoning.
