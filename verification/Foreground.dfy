/** Which accounted uids are running, and which of them are in the foreground. */
module Foreground {
  import opened Rules

  /** The pids in the foreground group, the processes listed with the uid each could be resolved to,
      and whether the screen is off. */
  datatype Sample = Sample(topPids: set<int>, procs: map<int, Uid>, screenOff: bool)

  /** The uids among the targets that own one of the given pids. */
  function OwnersOf(procs: map<int, Uid>, pids: set<int>, targets: set<Uid>): set<Uid> {
    set p | p in pids && p in procs && procs[p] in targets :: procs[p]
  }

  /** The pids a pass over the process list looks at. */
  function ListedPids(s: Sample): set<int> { set p | p in s.procs && p > 1 }

  function LiveUids(s: Sample, needLive: bool, targets: set<Uid>): set<Uid> {
    if needLive then OwnersOf(s.procs, ListedPids(s), targets) else {}
  }

  function FgUids(s: Sample, needLive: bool, targets: set<Uid>): set<Uid> {
    OwnersOf(s.procs, if needLive then ListedPids(s) * s.topPids else s.topPids, targets)
  }

  /** One pass over the foreground pids, or over all processes when live uids are needed. */
  method UidsSnapshot(s: Sample, needLive: bool, targets: set<Uid>) returns (live: set<Uid>, fg: set<Uid>)
    ensures live == LiveUids(s, needLive, targets) && fg == FgUids(s, needLive, targets)
    ensures live <= targets && fg <= targets
    ensures needLive ==> fg <= live
  {
    live, fg := {}, {};
    if !needLive {
      var todo := s.topPids;
      while todo != {}
        invariant todo <= s.topPids
        invariant fg == OwnersOf(s.procs, s.topPids - todo, targets)
      {
        var pid := Pick(todo);
        todo := todo - {pid};
        if pid in s.procs && s.procs[pid] in targets {
          fg := fg + {s.procs[pid]};
        }
      }
      return;
    }
    var all := ListedPids(s);
    var todo := all;
    while todo != {}
      invariant todo <= all
      invariant live == OwnersOf(s.procs, all - todo, targets)
      invariant fg == OwnersOf(s.procs, (all - todo) * s.topPids, targets)
    {
      var pid := Pick(todo);
      todo := todo - {pid};
      if s.procs[pid] in targets {
        live := live + {s.procs[pid]};
        if pid in s.topPids {
          fg := fg + {s.procs[pid]};
        }
      }
    }
  }
}
