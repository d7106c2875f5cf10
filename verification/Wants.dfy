/** What the wanted state means: which rule decides about a uid, and which names identify it. */
module Wants {
  import opened Sorting
  import opened Rules
  import opened EngineState

  /** The rule key resolves to this uid and may be blocked. */
  predicate Applies(cfg: Config, key: string, u: Uid) {
    Blockable(cfg, key) && cfg.uidOf[key] == u
  }

  predicate HasMember(cfg: Config, members: seq<string>, u: Uid) {
    exists m | m in members :: Applies(cfg, m, u)
  }

  /** The last app rule about a uid, in key order. */
  function LastApp(cfg: Config, apps: seq<AppRule>, u: Uid): Option<AppRule> {
    if apps == [] then None
    else if Applies(cfg, apps[|apps| - 1].key, u) then Some(apps[|apps| - 1])
    else LastApp(cfg, apps[..|apps| - 1], u)
  }

  /** The last group that contains a uid, in key order. */
  function LastGroup(cfg: Config, groups: seq<GroupRule>, u: Uid): Option<GroupRule> {
    if groups == [] then None
    else if HasMember(cfg, groups[|groups| - 1].members, u) then Some(groups[|groups| - 1])
    else LastGroup(cfg, groups[..|groups| - 1], u)
  }

  /** The reference: the uid's group decides if it has one, else its app rule, else nothing. */
  function Governing(c: Core, u: Uid, now: nat, off: bool): Option<bool> {
    var g, a := LastGroup(c.cfg, c.cfg.rules.groups, u), LastApp(c.cfg, c.cfg.rules.apps, u);
    if g.Some? then Some(GroupDecision(c, g.value, u, now, off))
    else if a.Some? then Some(AppDecision(c, a.value, u, now, off))
    else None
  }

  function Lookup(want: map<Uid, bool>, u: Uid): Option<bool> {
    if u in want then Some(want[u]) else None
  }

  lemma {:induction false} WantOfConcat(vs: seq<Verdict>, ws: seq<Verdict>)
    ensures WantOf(vs + ws) == WantOf(vs) + WantOf(ws)
  {
    if ws == [] {
      assert vs + ws == vs;
    } else {
      var n := |ws| - 1;
      assert (vs + ws)[..|vs| + n] == vs + ws[..n];
      WantOfConcat(vs, ws[..n]);
    }
  }

  lemma WantOfSnoc(vs: seq<Verdict>, v: Verdict)
    ensures WantOf(vs + [v]) == WantOf(vs)[v.uid := v.block]
  {
    assert (vs + [v])[..|vs|] == vs;
  }

  lemma {:induction false} AppVerdictsSpec(c: Core, apps: seq<AppRule>, u: Uid, now: nat, off: bool)
    ensures var a := LastApp(c.cfg, apps, u);
      Lookup(WantOf(AppVerdicts(c, apps, now, off)), u)
      == if a.Some? then Some(AppDecision(c, a.value, u, now, off)) else None
  {
    if apps == [] {
    } else {
      var rest, a := apps[..|apps| - 1], apps[|apps| - 1];
      AppVerdictsSpec(c, rest, u, now, off);
      if Blockable(c.cfg, a.key) {
        var v := Verdict(c.cfg.uidOf[a.key], a.key, AppDecision(c, a, c.cfg.uidOf[a.key], now, off));
        WantOfSnoc(AppVerdicts(c, rest, now, off), v);
      }
    }
  }

  lemma {:induction false} MemberVerdictsSpec(c: Core, g: GroupRule, members: seq<string>, u: Uid, now: nat, off: bool)
    ensures Lookup(WantOf(MemberVerdicts(c, g, members, now, off)), u)
         == if HasMember(c.cfg, members, u) then Some(GroupDecision(c, g, u, now, off)) else None
  {
    hide GroupDecision;
    if members == [] {
    } else {
      var rest, m := members[..|members| - 1], members[|members| - 1];
      MemberVerdictsSpec(c, g, rest, u, now, off);
      assert forall x :: x in members <==> x in rest || x == m;
      assert HasMember(c.cfg, members, u) == (HasMember(c.cfg, rest, u) || Applies(c.cfg, m, u));
      if Blockable(c.cfg, m) {
        var v := Verdict(c.cfg.uidOf[m], m, GroupDecision(c, g, c.cfg.uidOf[m], now, off));
        WantOfSnoc(MemberVerdicts(c, g, rest, now, off), v);
      }
    }
  }

  lemma {:induction false} GroupVerdictsSpec(c: Core, groups: seq<GroupRule>, u: Uid, now: nat, off: bool)
    ensures var g := LastGroup(c.cfg, groups, u);
      Lookup(WantOf(GroupVerdicts(c, groups, now, off)), u)
      == if g.Some? then Some(GroupDecision(c, g.value, u, now, off)) else None
  {
    if groups == [] {
    } else {
      var rest, g := groups[..|groups| - 1], groups[|groups| - 1];
      GroupVerdictsSpec(c, rest, u, now, off);
      MemberVerdictsSpec(c, g, g.members, u, now, off);
      WantOfConcat(GroupVerdicts(c, rest, now, off), MemberVerdicts(c, g, g.members, now, off));
    }
  }

  /** The wanted state of every uid is the decision of the rule that governs it. */
  lemma WantRefinesGoverning(c: Core, u: Uid, now: nat, off: bool)
    ensures Lookup(WantOf(Verdicts(c, now, off)), u) == Governing(c, u, now, off)
    ensures u in WantedBlocks(c, now, off) <==> Governing(c, u, now, off) == Some(true)
  {
    AppVerdictsSpec(c, c.cfg.rules.apps, u, now, off);
    GroupVerdictsSpec(c, c.cfg.rules.groups, u, now, off);
    WantOfConcat(AppVerdicts(c, c.cfg.rules.apps, now, off), GroupVerdicts(c, c.cfg.rules.groups, now, off));
  }

  /** A uid in exactly one group is decided by that group, whatever app rules exist. */
  lemma OneGroupDecides(c: Core, g: GroupRule, u: Uid, now: nat, off: bool)
    requires g in c.cfg.rules.groups && HasMember(c.cfg, g.members, u)
    requires forall h | h in c.cfg.rules.groups && HasMember(c.cfg, h.members, u) :: h == g
    ensures Governing(c, u, now, off) == Some(GroupDecision(c, g, u, now, off))
  {
    LastGroupIsSome(c.cfg, c.cfg.rules.groups, g, u);
  }

  lemma {:induction false} LastGroupIsSome(cfg: Config, groups: seq<GroupRule>, g: GroupRule, u: Uid)
    requires g in groups && HasMember(cfg, g.members, u)
    ensures var r := LastGroup(cfg, groups, u);
      r.Some? && r.value in groups && HasMember(cfg, r.value.members, u)
  {
    if !HasMember(cfg, groups[|groups| - 1].members, u) {
      LastGroupIsSome(cfg, groups[..|groups| - 1], g, u);
    }
  }

  /** An ungrouped uid with one app key is decided by that app rule. */
  lemma OneAppDecides(c: Core, a: AppRule, u: Uid, now: nat, off: bool)
    requires a in c.cfg.rules.apps && Applies(c.cfg, a.key, u)
    requires forall b | b in c.cfg.rules.apps && Applies(c.cfg, b.key, u) :: b == a
    requires forall g | g in c.cfg.rules.groups :: !HasMember(c.cfg, g.members, u)
    ensures Governing(c, u, now, off) == Some(AppDecision(c, a, u, now, off))
  {
    LastAppIsSome(c.cfg, c.cfg.rules.apps, a, u);
    NoLastGroup(c.cfg, c.cfg.rules.groups, u);
  }

  lemma {:induction false} LastAppIsSome(cfg: Config, apps: seq<AppRule>, a: AppRule, u: Uid)
    requires a in apps && Applies(cfg, a.key, u)
    ensures var r := LastApp(cfg, apps, u); r.Some? && r.value in apps && Applies(cfg, r.value.key, u)
  {
    if !Applies(cfg, apps[|apps| - 1].key, u) {
      LastAppIsSome(cfg, apps[..|apps| - 1], a, u);
    }
  }

  lemma {:induction false} NoLastGroup(cfg: Config, groups: seq<GroupRule>, u: Uid)
    requires forall g | g in groups :: !HasMember(cfg, g.members, u)
    ensures LastGroup(cfg, groups, u) == None
  {
    if groups == [] {
    } else {
      assert groups[|groups| - 1] in groups;
      NoLastGroup(cfg, groups[..|groups| - 1], u);
    }
  }

  // ---------- identity names ----------

  /** The package name a verdict contributes for a uid. */
  predicate Contributes(v: Verdict, u: Uid, name: string) {
    v.uid == u && v.block && PackageOf(v.key) == Some(name)
  }

  predicate Named(vs: seq<Verdict>, u: Uid, name: string) {
    exists v | v in vs :: Contributes(v, u, name)
  }

  lemma {:induction false} NamesOfSpec(vs: seq<Verdict>, u: Uid, name: string)
    ensures u in NamesOf(vs) ==> NamesOf(vs)[u] != []
    ensures (u in NamesOf(vs) && name in NamesOf(vs)[u]) <==> Named(vs, u, name)
  {
    if vs == [] {
    } else {
      var v, rest := vs[|vs| - 1], vs[..|vs| - 1];
      NamesOfSpec(rest, u, name);
      assert forall w :: w in vs <==> w in rest || w == v;
      assert Named(vs, u, name) == (Named(rest, u, name) || Contributes(v, u, name));
    }
  }

  /** The index lists, for each uid, exactly the package names of its blocking verdicts, ascending
      and without duplicates. */
  lemma BlockIndexSpec(vs: seq<Verdict>, u: Uid)
    ensures u in BlockIndex(vs) <==> exists name :: Named(vs, u, name)
    ensures u in BlockIndex(vs) ==>
      && BlockIndex(vs)[u] != []
      && Ascending(BlockIndex(vs)[u], StringLess)
      && forall name :: name in BlockIndex(vs)[u] <==> Named(vs, u, name)
  {
    StringLessIsStrictTotal();
    forall name { NamesOfSpec(vs, u, name); }
    NamesOfSpec(vs, u, "");
    if u in NamesOf(vs) {
      var names := NamesOf(vs)[u];
      SortDedupSpec(names, StringLess);
      assert names[0] in SortDedup(names, StringLess);
      assert Named(vs, u, names[0]);
    }
  }

  lemma {:induction false} AppVerdictsKeys(c: Core, apps: seq<AppRule>, now: nat, off: bool)
    ensures forall v | v in AppVerdicts(c, apps, now, off) :: Applies(c.cfg, v.key, v.uid)
  {
    if apps == [] {
    } else {
      AppVerdictsKeys(c, apps[..|apps| - 1], now, off);
    }
  }

  lemma {:induction false} MemberVerdictsKeys(c: Core, g: GroupRule, members: seq<string>, now: nat, off: bool)
    ensures forall v | v in MemberVerdicts(c, g, members, now, off) :: Applies(c.cfg, v.key, v.uid)
  {
    if members == [] {
    } else {
      MemberVerdictsKeys(c, g, members[..|members| - 1], now, off);
    }
  }

  lemma {:induction false} GroupVerdictsKeys(c: Core, groups: seq<GroupRule>, now: nat, off: bool)
    ensures forall v | v in GroupVerdicts(c, groups, now, off) :: Applies(c.cfg, v.key, v.uid)
  {
    if groups == [] {
    } else {
      GroupVerdictsKeys(c, groups[..|groups| - 1], now, off);
      MemberVerdictsKeys(c, groups[|groups| - 1], groups[|groups| - 1].members, now, off);
    }
  }

  lemma {:induction false} WantComesFromAVerdict(vs: seq<Verdict>, u: Uid)
    requires u in WantOf(vs)
    ensures exists v | v in vs :: v.uid == u && v.block == WantOf(vs)[u]
  {
    var v := vs[|vs| - 1];
    assert v in vs;
    if v.uid != u {
      WantComesFromAVerdict(vs[..|vs| - 1], u);
      var w :| w in vs[..|vs| - 1] && w.uid == u && w.block == WantOf(vs)[u];
      assert w in vs;
    }
  }

  /** Every uid to block is an app uid of an unprotected key and has at least one name to
      recognise it by, provided the uid map's keys carry a package name. */
  lemma BlockedUidsAreNamed(c: Core, now: nat, off: bool, u: Uid)
    requires forall key | key in c.cfg.uidOf :: PackageOf(key).Some?
    requires u in WantedBlocks(c, now, off)
    ensures u >= FIRST_APP_UID
    ensures exists key :: Applies(c.cfg, key, u)
    ensures var index := BlockIndex(Verdicts(c, now, off));
      u in index && index[u] != [] && Ascending(index[u], StringLess)
  {
    var vs := Verdicts(c, now, off);
    WantComesFromAVerdict(vs, u);
    var v :| v in vs && v.uid == u && v.block == WantOf(vs)[u];
    AppVerdictsKeys(c, c.cfg.rules.apps, now, off);
    GroupVerdictsKeys(c, c.cfg.rules.groups, now, off);
    assert Applies(c.cfg, v.key, u);
    assert Named(vs, u, PackageOf(v.key).value);
    BlockIndexSpec(vs, u);
  }
}
