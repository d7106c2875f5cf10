/** Where the rules in force come from: the live file, the last known good copy, or the default. */
module RulesStore {
  import opened Rules

  /** A file's content, as far as parsing goes. A missing file is `None`. */
  datatype Content = Unparseable | Parsed(rules: RuleFile)

  datatype Source = File | Backup | Default

  /** The rules in memory with their origin, and the two files on disk. */
  datatype Store = Store(rules: RuleFile, source: Source, live: Option<Content>, backup: Option<Content>)

  /** Loading parses and sanitizes; the schema version is not looked at here. */
  function Load(file: Option<Content>): Option<RuleFile> {
    if file.Some? && file.value.Parsed? then Some(Sanitized(file.value.rules)) else None
  }

  /** Takes over the live file and, when the copy succeeds, keeps it as the last known good one. */
  function TakeLive(s: Store, rules: RuleFile, copyOk: bool): Store {
    s.(rules := rules, source := File, backup := if copyOk then s.live else s.backup)
  }

  function LoadRules(s: Store, copyOk: bool): Store {
    match Load(s.live)
    case Some(rules) => TakeLive(s, rules, copyOk)
    case None =>
      match Load(s.backup)
      case Some(rules) => s.(rules := rules, source := Backup)
      case None => s.(rules := DEFAULT_RULES, source := Default)
  }

  /** A live file that does not parse leaves good rules in memory alone. */
  function ReloadRules(s: Store, copyOk: bool): Store {
    match Load(s.live)
    case Some(rules) => TakeLive(s, rules, copyOk)
    case None => if s.source != File then LoadRules(s, copyOk) else s
  }

  /** Validates a candidate, makes its sanitized form the live file, and reloads. When writing the new
      file or putting it in place fails, the live file is as before. */
  function Apply(s: Store, candidate: Option<Content>, writeOk: bool, copyOk: bool): (Store, bool) {
    if candidate.None? || candidate.value.Unparseable? then (s, false)
    else if candidate.value.rules.version > RULES_VERSION_MAX then (s, false)
    else if !writeOk then (s, false)
    else
      var e := ReloadRules(s.(live := Some(Parsed(Sanitized(candidate.value.rules)))), copyOk);
      (e, e.source == File)
  }

  /** A new daemon process starts from the default and loads. */
  function Restart(s: Store, copyOk: bool): Store {
    LoadRules(s.(rules := DEFAULT_RULES, source := Default), copyOk)
  }

  /** `Write` is anyone else writing, corrupting or deleting the live file. */
  datatype Event =
    | ApplyFile(candidate: Option<Content>, writeOk: bool)
    | Reload
    | RestartDaemon
    | Write(content: Option<Content>)

  function Handle(s: Store, e: Event): Store {
    match e
    case ApplyFile(candidate, writeOk) => Apply(s, candidate, writeOk, true).0
    case Reload => ReloadRules(s, true)
    case RestartDaemon => Restart(s, true)
    case Write(content) => s.(live := content)
  }

  function Run(s: Store, events: seq<Event>): Store {
    if events == [] then s else Handle(Run(s, events[..|events| - 1]), events[|events| - 1])
  }

  /** Whether the daemon reads a parsing live file while handling the event, and what it holds. */
  function SeenBy(s: Store, e: Event): Option<RuleFile> {
    match e
    case ApplyFile(candidate, writeOk) =>
      if writeOk && candidate.Some? && candidate.value.Parsed? && candidate.value.rules.version <= RULES_VERSION_MAX
      then Some(candidate.value.rules) else None
    case Reload => if Load(s.live).Some? then Some(s.live.value.rules) else None
    case RestartDaemon => if Load(s.live).Some? then Some(s.live.value.rules) else None
    case Write(_) => None
  }

  /** The latest rules seen to parse as the live file, starting from those first loaded. */
  function LastGood(s: Store, first: RuleFile, events: seq<Event>): RuleFile {
    if events == [] then first
    else
      var n := |events| - 1;
      var seen := SeenBy(Run(s, events[..n]), events[n]);
      if seen.Some? then seen.value else LastGood(s, first, events[..n])
  }

  /** The rules in force are those of `good`, and the backup would restore them. */
  ghost predicate Holds(s: Store, good: RuleFile) {
    s.rules == Sanitized(good) && s.source != Default && Load(s.backup) == Some(Sanitized(good))
  }

  lemma EventKeepsGood(s: Store, good: RuleFile, e: Event)
    requires Holds(s, good)
    ensures Holds(Handle(s, e), if SeenBy(s, e).Some? then SeenBy(s, e).value else good)
  {
    hide Sanitized;
    if e.ApplyFile? && SeenBy(s, e).Some? {
      SanitizeIdempotent(e.candidate.value.rules);
    }
  }

  /** A first load that succeeds establishes the state. */
  lemma FirstLoadHolds(s: Store)
    requires Load(s.live).Some?
    ensures Holds(LoadRules(s, true), s.live.value.rules)
  {}

  /** After one successful load, whatever mix of applies, bad or missing live files, reloads and
      restarts follows, the rules in force are the latest ones seen to parse: never stale ones, never
      the default. */
  lemma {:induction false} RulesAreLastGood(s: Store, first: RuleFile, events: seq<Event>)
    requires Holds(s, first)
    ensures Holds(Run(s, events), LastGood(s, first, events))
  {
    hide Holds, Handle, SeenBy;
    if events == [] {
    } else {
      var n := |events| - 1;
      RulesAreLastGood(s, first, events[..n]);
      EventKeepsGood(Run(s, events[..n]), LastGood(s, first, events[..n]), events[n]);
    }
  }

  /** An apply either installs exactly the sanitized candidate or leaves memory and disk untouched;
      it refuses what does not parse and what claims a newer schema, and reports a write that fails. */
  lemma ApplyIsAllOrNothing(s: Store, candidate: Option<Content>, writeOk: bool, copyOk: bool)
    ensures var (e, ok) := Apply(s, candidate, writeOk, copyOk);
      && (ok <==> candidate.Some? && candidate.value.Parsed? && candidate.value.rules.version <= 1 && writeOk)
      && (!ok ==> e == s)
      && (ok ==> e.rules == Sanitized(candidate.value.rules) && e.source == File && Load(e.live) == Some(e.rules))
  {
    hide Sanitized;
    if candidate.Some? && candidate.value.Parsed? {
      SanitizeIdempotent(candidate.value.rules);
    }
  }

  ghost predicate Parses(file: Option<Content>) { file.Some? && file.value.Parsed? }

  /** Which rules a load puts in force: those of the live file if it parses, else those of the last good copy
      if that parses, else none at all; only a live file that parses is copied. A reload that finds no live
      file that parses keeps good rules, and otherwise loads like this. */
  lemma LoadIff(s: Store, copyOk: bool)
    ensures var e := LoadRules(s, copyOk);
      && e.live == s.live
      && (if Parses(s.live) then
            && e.rules == Sanitized(s.live.value.rules) && e.source == File
            && e.backup == (if copyOk then s.live else s.backup)
          else if Parses(s.backup) then
            e.rules == Sanitized(s.backup.value.rules) && e.source == Backup && e.backup == s.backup
          else
            e.rules.apps == [] && e.rules.groups == [] && e.source == Default && e.backup == s.backup)
    ensures ReloadRules(s, copyOk) ==
      if !Parses(s.live) && s.source == File then s else LoadRules(s, copyOk)
  {
    hide Sanitized;
  }

  /** The schema version guards the apply command only: the same newer file that an apply refuses is
      taken over when it is found as the live file. */
  lemma NewerSchemaIsLoaded(s: Store, rules: RuleFile, writeOk: bool, copyOk: bool)
    requires rules.version > RULES_VERSION_MAX && s.live == Some(Parsed(rules))
    ensures Apply(s, s.live, writeOk, copyOk) == (s, false)
    ensures ReloadRules(s, copyOk).rules == Sanitized(rules) && ReloadRules(s, copyOk).source == File
  {}

  /** At one input: a file of version 2 with no rules, refused by an apply, replaces rules of version 1. */
  lemma VersionTwoIsLoaded()
    ensures var first, newer := DEFAULT_RULES.(version := 1), DEFAULT_RULES.(version := 2);
      var s := Store(first, File, Some(Parsed(newer)), Some(Parsed(first)));
      && Apply(s, Some(Parsed(newer)), true, true) == (s, false)
      && ReloadRules(s, true).rules.version == 2
  {
    var first, newer := DEFAULT_RULES.(version := 1), DEFAULT_RULES.(version := 2);
    NewerSchemaIsLoaded(Store(first, File, Some(Parsed(newer)), Some(Parsed(first))), newer, true, true);
  }
}
