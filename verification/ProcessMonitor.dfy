/**
 The process watcher and enforcer (agent/app_monitor.py, LockdownConfig.is_allowed
 and AppMonitor._scan_processes, _enforce_existing). The process list, the clock,
 glob matching (case-insensitive `fnmatch`) and the order in which Python goes
 through its sets and dictionaries are parameters. A scan is one atomic step.
 */
module ProcessMonitor {
  import opened Options
  import LockdownTimers

  type Pid = LockdownTimers.Pid

  datatype Rules = Rules(mode: string, whitelist: seq<string>, blacklist: seq<string>, kioskApp: string,
                         scheduleLocked: bool, overrideActive: bool)

  datatype Reason = ScheduleLocked | BreakDue | Policy

  datatype Event =
    | Launch(pid: Pid, name: string)
    | Exit(pid: Pid, name: string)
    | Blocked(pid: Pid, name: string, reason: Reason)
    | Killed(pid: Pid, name: string)
    | KioskRestart(app: string)

  /** `known` maps each pid to the name it was first seen with; `running` maps
      each name to its pids. */
  datatype Index = Index(known: map<Pid, string>, running: map<string, set<Pid>>, onBreak: bool, breakUntil: real)

  const EMPTY := Index(map[], map[], false, 0.0)

  type Glob = (string, string) -> bool

  // ---------------------------------------------------------------------
  // Policy
  // ---------------------------------------------------------------------

  predicate IsOff(r: Rules) {
    r.mode == "off"
  }

  /** The timer id that the code returns beside the answer is always empty. */
  predicate IsAllowed(glob: Glob, r: Rules, name: string) {
    if IsOff(r) || r.overrideActive then true
    else if r.mode == "kiosk" then glob(name, r.kioskApp)
    else if r.mode == "whitelist" then LockdownTimers.MatchesAny(glob, name, r.whitelist)
    else if r.mode == "blacklist" then !LockdownTimers.MatchesAny(glob, name, r.blacklist)
    else true
  }

  /** Why a process of this name is to be killed at this time, if it is. */
  function Verdict(glob: Glob, r: Rules, onBreak: bool, breakUntil: real, now: real, name: string): Option<Reason> {
    if IsOff(r) then None
    else if r.scheduleLocked && !r.overrideActive then Some(ScheduleLocked)
    else if onBreak && now < breakUntil && !r.overrideActive then Some(BreakDue)
    else if !IsAllowed(glob, r, name) then Some(Policy)
    else None
  }

  /** What one scan works with. */
  datatype View = View(rules: Rules, now: real, snapshot: map<Pid, string>)

  function Judge(glob: Glob, view: View, m: Index, name: string): Option<Reason> {
    Verdict(glob, view.rules, m.onBreak, m.breakUntil, view.now, name)
  }

  function Block(verdict: Option<Reason>, pid: Pid, name: string): seq<Event> {
    match verdict case None => [] case Some(reason) => [Blocked(pid, name, reason), Killed(pid, name)]
  }

  // ---------------------------------------------------------------------
  // A scan
  // ---------------------------------------------------------------------

  /** The name a table gives a pid; the code only looks up pids that are there. */
  function NameIn(names: map<Pid, string>, pid: Pid): string {
    if pid in names then names[pid] else ""
  }

  function Bucket(running: map<string, set<Pid>>, name: string): set<Pid> {
    if name in running then running[name] else {}
  }

  function Depart(m: Index, pid: Pid): Index {
    if pid !in m.known then m
    else
      var name := m.known[pid];
      var left := Bucket(m.running, name) - {pid};
      m.(known := m.known - {pid}, running := if left == {} then m.running - {name} else m.running[name := left])
  }

  function DepartAll(m: Index, pids: seq<Pid>): Index {
    if pids == [] then m else Depart(DepartAll(m, pids[..|pids| - 1]), pids[|pids| - 1])
  }

  function ExitOf(m: Index, pid: Pid): seq<Event> {
    if pid in m.known then [Exit(pid, m.known[pid])] else []
  }

  function ExitEvents(m: Index, pids: seq<Pid>): seq<Event> {
    if pids == [] then []
    else
      var mid, last := DepartAll(m, pids[..|pids| - 1]), pids[|pids| - 1];
      ExitEvents(m, pids[..|pids| - 1]) + ExitOf(mid, last)
  }

  /** A launch finds that the break is over. */
  predicate EndsBreak(view: View, m: Index) {
    !IsOff(view.rules) && !view.rules.overrideActive && !view.rules.scheduleLocked && m.onBreak
        && !(view.now < m.breakUntil)
  }

  function Arrive(view: View, m: Index, pid: Pid, name: string): Index {
    m.(known := m.known[pid := name], running := m.running[name := Bucket(m.running, name) + {pid}],
       onBreak := m.onBreak && !EndsBreak(view, m))
  }

  function ArriveAll(view: View, m: Index, pids: seq<Pid>): Index
  {
    if pids == [] then m
    else
      var last := pids[|pids| - 1];
      Arrive(view, ArriveAll(view, m, pids[..|pids| - 1]), last, NameIn(view.snapshot, last))
  }

  /** What a launch fires, and the verdict on it. */
  function LaunchOf(glob: Glob, view: View, m: Index, pid: Pid): seq<Event> {
    var name := NameIn(view.snapshot, pid);
    [Launch(pid, name)] + Block(Judge(glob, view, m, name), pid, name)
  }

  function LaunchEvents(glob: Glob, view: View, m: Index, pids: seq<Pid>): seq<Event> {
    if pids == [] then []
    else
      var init, last := pids[..|pids| - 1], pids[|pids| - 1];
      LaunchEvents(glob, view, m, init) + LaunchOf(glob, view, ArriveAll(view, m, init), last)
  }

  function KioskEvents(glob: Glob, r: Rules, running: map<string, set<Pid>>): seq<Event> {
    if r.mode == "kiosk" && r.kioskApp != "" && !r.scheduleLocked
       && !exists name | name in running :: glob(name, r.kioskApp)
    then
      [KioskRestart(r.kioskApp)]
    else []
  }

  function ExistingEvents(glob: Glob, view: View, m: Index, pids: seq<Pid>): seq<Event>
  {
    if pids == [] then []
    else
      var last := pids[|pids| - 1];
      ExistingEvents(glob, view, m, pids[..|pids| - 1])
          + Block(Judge(glob, view, m, NameIn(m.known, last)), last, NameIn(m.known, last))
  }

  /** The order in which Python goes through a set or dictionary of pids. */
  ghost predicate Enumerates(order: seq<Pid>, pids: set<Pid>) {
    && (forall p :: p in order <==> p in pids)
    && (forall i, j | 0 <= i < j < |order| :: order[i] != order[j])
  }

  datatype Orders = Orders(exited: seq<Pid>, launched: seq<Pid>, listed: seq<Pid>)

  ghost predicate Ordered(m: Index, view: View, o: Orders) {
    && Enumerates(o.exited, m.known.Keys - view.snapshot.Keys)
    && Enumerates(o.launched, view.snapshot.Keys - m.known.Keys)
    && Enumerates(o.listed, view.snapshot.Keys)
  }

  function Scan(m: Index, view: View, o: Orders): Index
  {
    ArriveAll(view, DepartAll(m, o.exited), o.launched)
  }

  function ScanEvents(glob: Glob, m: Index, view: View, o: Orders): seq<Event> {
    var after := Scan(m, view, o);
    TrackEvents(glob, m, view, o)
        + (KioskEvents(glob, view.rules, after.running) + ExistingEvents(glob, view, after, o.listed))
  }

  function TrackEvents(glob: Glob, m: Index, view: View, o: Orders): seq<Event>
  {
    ExitEvents(m, o.exited) + LaunchEvents(glob, view, DepartAll(m, o.exited), o.launched)
  }

  // ---------------------------------------------------------------------
  // What a scan leaves in the index
  // ---------------------------------------------------------------------

  lemma {:induction false} DepartAllKnown(m: Index, pids: seq<Pid>)
    ensures DepartAll(m, pids).known == m.known - set p | p in pids
    ensures DepartAll(m, pids).onBreak == m.onBreak && DepartAll(m, pids).breakUntil == m.breakUntil
  {
    if pids == [] {
    } else {
      var init, last := pids[..|pids| - 1], pids[|pids| - 1];
      DepartAllKnown(m, init);
      assert (set p | p in pids) == (set p | p in init) + {last};
    }
  }

  lemma {:induction false} ArriveAllPids(view: View, m: Index, pids: seq<Pid>)
    ensures ArriveAll(view, m, pids).known.Keys == m.known.Keys + (set p | p in pids)
  {
    if pids == [] {
    } else {
      var init, last := pids[..|pids| - 1], pids[|pids| - 1];
      ArriveAllPids(view, m, init);
      assert pids == init + [last];
    }
  }

  lemma {:induction false} ArriveAllNames(view: View, m: Index, pids: seq<Pid>, p: Pid)
    requires p in ArriveAll(view, m, pids).known
    ensures ArriveAll(view, m, pids).known[p] == if p in pids then NameIn(view.snapshot, p) else NameIn(m.known, p)
  {
    if pids == [] {
    } else {
      var init, last := pids[..|pids| - 1], pids[|pids| - 1];
      assert pids == init + [last];
      if p != last {
        ArriveAllNames(view, m, init, p);
      }
    }
  }

  lemma ArriveAllKnown(view: View, m: Index, pids: seq<Pid>)
    ensures var after := ArriveAll(view, m, pids).known;
            && after.Keys == m.known.Keys + (set p | p in pids)
            && (forall p | p in after :: after[p] == if p in pids then NameIn(view.snapshot, p) else NameIn(m.known, p))
  {
    ArriveAllPids(view, m, pids);
    forall p | p in ArriveAll(view, m, pids).known
      ensures ArriveAll(view, m, pids).known[p] == if p in pids then NameIn(view.snapshot, p) else NameIn(m.known, p)
    {
      ArriveAllNames(view, m, pids, p);
    }
  }

  lemma {:induction false} ArriveAllBreak(view: View, m: Index, pids: seq<Pid>)
    ensures var after := ArriveAll(view, m, pids);
            && after.breakUntil == m.breakUntil
            && (after.onBreak ==> m.onBreak) && (m.onBreak && !after.onBreak ==> !(view.now < m.breakUntil))
  {
    if pids == [] {
    } else {
      ArriveAllBreak(view, m, pids[..|pids| - 1]);
    }
  }

  /** The known pids are those of the last snapshot; a pid that was known keeps
      its name, whatever the snapshot calls it now. */
  lemma ScanListsKnown(m: Index, view: View, o: Orders)
    requires Ordered(m, view, o)
    ensures var after := Scan(m, view, o);
            && after.known.Keys == view.snapshot.Keys
            && (forall p | p in o.listed :: p in after.known)
            && (forall p | p in after.known :: after.known[p] == if p in m.known then m.known[p] else view.snapshot[p])
  {
    DepartAllKnown(m, o.exited);
    ArriveAllKnown(view, DepartAll(m, o.exited), o.launched);
  }

  /** The names are the snapshot's exactly when no known pid was taken over by a
      process with another name. */
  lemma NamesAreCurrent(m: Index, view: View, o: Orders)
    requires Ordered(m, view, o)
    ensures Scan(m, view, o).known == view.snapshot <==>
            forall p | p in m.known && p in view.snapshot :: m.known[p] == view.snapshot[p]
  {
    ScanListsKnown(m, view, o);
    var after := Scan(m, view, o).known;
    if forall p | p in m.known && p in view.snapshot :: m.known[p] == view.snapshot[p] {
      assert forall p | p in after :: after[p] == view.snapshot[p];
    } else {
      var p :| p in m.known && p in view.snapshot && m.known[p] != view.snapshot[p];
      assert after[p] != view.snapshot[p];
    }
  }

  lemma Regroup(a: seq<Event>, b: seq<Event>, c: seq<Event>)
    ensures (a + b) + c == a + (b + c)
  {
  }

  // ---------------------------------------------------------------------
  // The monitor
  // ---------------------------------------------------------------------

  class AppMonitor {
    const glob: Glob
    var known: map<Pid, string>
    var running: map<string, set<Pid>>
    var onBreak: bool
    var breakUntil: real
    ghost var log: seq<Event>

    ghost function Now(): Index
      reads this
    {
      Index(known, running, onBreak, breakUntil)
    }

    constructor (glob: Glob)
      ensures Now() == EMPTY && log == [] && this.glob == glob
    {
      this.glob := glob;
      known, running, onBreak, breakUntil, log := map[], map[], false, 0.0, [];
    }

    method MatchesOne(name: string, patterns: seq<string>) returns (found: bool)
      ensures found <==> LockdownTimers.MatchesAny(glob, name, patterns)
    {
      for k := 0 to |patterns|
        invariant forall j | 0 <= j < k :: !glob(name, patterns[j])
      {
        if glob(name, patterns[k]) {
          return true;
        }
      }
      found := false;
    }

    method CheckAllowed(r: Rules, name: string) returns (allowed: bool)
      ensures allowed == IsAllowed(glob, r, name)
    {
      if IsOff(r) || r.overrideActive {
        return true;
      }
      if r.mode == "kiosk" {
        return glob(name, r.kioskApp);
      }
      if r.mode == "whitelist" {
        allowed := MatchesOne(name, r.whitelist);
        return;
      }
      if r.mode == "blacklist" {
        var listed := MatchesOne(name, r.blacklist);
        return !listed;
      }
      allowed := true;
    }

    /** Exits, then launches. */
    method TrackChanges(view: View, o: Orders)
      modifies this
      ensures Now() == Scan(old(Now()), view, o)
      ensures log == old(log) + TrackEvents(glob, old(Now()), view, o)
    {
      ghost var m, before := Now(), log;
      ExitAll(o.exited);
      LaunchAll(view, o.launched);
      Regroup(before, ExitEvents(m, o.exited), LaunchEvents(glob, view, DepartAll(m, o.exited), o.launched));
    }

    /** The kiosk application, then the processes that are already running. */
    method Enforce(view: View, listed: seq<Pid>)
      modifies this`log
      ensures log == old(log) + (KioskEvents(glob, view.rules, running) + ExistingEvents(glob, view, Now(), listed))
    {
      EnsureKioskAppRunning(view.rules);
      EnforceExisting(view, listed);
    }

    ghost method BlockProcess(pid: Pid, name: string, reason: Reason)
      modifies this`log
      ensures log == old(log) + Block(Some(reason), pid, name)
    {
      log := log + [Blocked(pid, name, reason)];
      log := log + [Killed(pid, name)];
    }

    method HandleExit(pid: Pid)
      modifies this
      ensures Now() == Depart(old(Now()), pid)
      ensures log == old(log) + ExitOf(old(Now()), pid)
    {
      if pid in known {
        var name := known[pid];
        known := known - {pid};
        var left := (if name in running then running[name] else {}) - {pid};
        if left == {} {
          running := running - {name};
        } else {
          running := running[name := left];
        }
        log := log + [Exit(pid, name)];
      }
    }

    method HandleLaunch(view: View, pid: Pid)
      modifies this
      ensures Now() == Arrive(view, old(Now()), pid, NameIn(view.snapshot, pid))
      ensures log == old(log) + LaunchOf(glob, view, old(Now()), pid)
    {
      var name, r := NameIn(view.snapshot, pid), view.rules;
      known := known[pid := name];
      running := running[name := (if name in running then running[name] else {}) + {pid}];
      log := log + [Launch(pid, name)];
      ghost var verdict := Judge(glob, view, old(Now()), name);
      Regroup(old(log), [Launch(pid, name)], Block(verdict, pid, name));
      if IsOff(r) {
        return;
      }
      if r.scheduleLocked && !r.overrideActive {
        BlockProcess(pid, name, ScheduleLocked);
        return;
      }
      if onBreak && !r.overrideActive {
        if view.now < breakUntil {
          BlockProcess(pid, name, BreakDue);
          return;
        } else {
          onBreak := false;
        }
      }
      var allowed := CheckAllowed(r, name);
      if !allowed {
        BlockProcess(pid, name, Policy);
      }
    }

    method EnforceOne(view: View, pid: Pid)
      modifies this`log
      ensures log == old(log) + Block(Judge(glob, view, Now(), NameIn(known, pid)), pid, NameIn(known, pid))
    {
      var name, r := NameIn(known, pid), view.rules;
      if IsOff(r) {
        return;
      }
      if r.scheduleLocked && !r.overrideActive {
        BlockProcess(pid, name, ScheduleLocked);
        return;
      }
      if onBreak && view.now < breakUntil && !r.overrideActive {
        BlockProcess(pid, name, BreakDue);
        return;
      }
      var allowed := CheckAllowed(r, name);
      if !allowed {
        BlockProcess(pid, name, Policy);
      }
    }

    method EnsureKioskAppRunning(r: Rules)
      modifies this`log
      ensures log == old(log) + KioskEvents(glob, r, running)
    {
      if r.mode == "kiosk" && r.kioskApp != "" && !r.scheduleLocked {
        var todo := running.Keys;
        while todo != {}
          invariant todo <= running.Keys && log == old(log)
          invariant forall name | name in running && name !in todo :: !glob(name, r.kioskApp)
          decreases |todo|
        {
          var name :| name in todo;
          if glob(name, r.kioskApp) {
            return;
          }
          todo := todo - {name};
        }
        log := log + [KioskRestart(r.kioskApp)];
      }
    }

    method ExitAll(exited: seq<Pid>)
      modifies this
      ensures Now() == DepartAll(old(Now()), exited) && log == old(log) + ExitEvents(old(Now()), exited)
    {
      for n := 0 to |exited|
        invariant Now() == DepartAll(old(Now()), exited[..n]) && log == old(log) + ExitEvents(old(Now()), exited[..n])
      {
        assert exited[..n + 1][..n] == exited[..n];
        HandleExit(exited[n]);
      }
      assert exited[..|exited|] == exited;
    }

    method LaunchAll(view: View, launched: seq<Pid>)
      modifies this
      ensures Now() == ArriveAll(view, old(Now()), launched)
      ensures log == old(log) + LaunchEvents(glob, view, old(Now()), launched)
    {
      for n := 0 to |launched|
        invariant Now() == ArriveAll(view, old(Now()), launched[..n])
        invariant log == old(log) + LaunchEvents(glob, view, old(Now()), launched[..n])
      {
        assert launched[..n + 1][..n] == launched[..n];
        ghost var mid := Now();
        HandleLaunch(view, launched[n]);
        Regroup(old(log), LaunchEvents(glob, view, old(Now()), launched[..n]), LaunchOf(glob, view, mid, launched[n]));
      }
      assert launched[..|launched|] == launched;
    }

    method EnforceExisting(view: View, listed: seq<Pid>)
      modifies this`log
      ensures log == old(log) + ExistingEvents(glob, view, Now(), listed)
    {
      for n := 0 to |listed|
        invariant log == old(log) + ExistingEvents(glob, view, Now(), listed[..n])
      {
        assert listed[..n + 1][..n] == listed[..n];
        EnforceOne(view, listed[n]);
      }
      assert listed[..|listed|] == listed;
    }

    method ScanProcesses(view: View, o: Orders)
      modifies this
      ensures Now() == Scan(old(Now()), view, o)
      ensures log == old(log) + ScanEvents(glob, old(Now()), view, o)
    {
      ghost var m, before := Now(), log;
      TrackChanges(view, o);
      Enforce(view, o.listed);
      ghost var rest := KioskEvents(glob, view.rules, running) + ExistingEvents(glob, view, Now(), o.listed);
      Regroup(before, TrackEvents(glob, m, view, o), rest);
    }

    method TriggerBreak(now: real, minutes: int, listed: seq<Pid>)
      modifies this
      ensures Now() == Step(old(Now()), BreakStarted(now + (minutes * 60) as real, listed))
      ensures log == old(log) + KillAll(old(Now()), listed)
    {
      onBreak := true;
      breakUntil := now + (minutes * 60) as real;
      for n := 0 to |listed|
        invariant known == old(known) && running == old(running)
        invariant onBreak && breakUntil == now + (minutes * 60) as real
        invariant log == old(log) + KillAll(old(Now()), listed[..n])
      {
        assert listed[..n + 1][..n] == listed[..n];
        log := log + [Killed(listed[n], NameIn(known, listed[n]))];
      }
      assert listed[..|listed|] == listed;
    }
  }

  // ---------------------------------------------------------------------
  // Runs
  // ---------------------------------------------------------------------

  datatype Op =
    | Scanned(view: View, orders: Orders)
    | BreakStarted(until: real, listed: seq<Pid>)

  ghost predicate InOrder(m: Index, op: Op) {
    match op
    case Scanned(view, o) => Ordered(m, view, o)
    case BreakStarted(_, listed) => Enumerates(listed, m.known.Keys)
  }

  /** `_kill_all_user_apps`, when a break starts. */
  function KillAll(m: Index, pids: seq<Pid>): seq<Event>
  {
    if pids == [] then []
    else
      var last := pids[|pids| - 1];
      KillAll(m, pids[..|pids| - 1]) + [Killed(last, NameIn(m.known, last))]
  }

  function Step(m: Index, op: Op): Index {
    match op
    case Scanned(view, o) => Scan(m, view, o)
    case BreakStarted(until, _) => m.(onBreak := true, breakUntil := until)
  }

  function After(ops: seq<Op>): Index {
    if ops == [] then EMPTY else Step(After(ops[..|ops| - 1]), ops[|ops| - 1])
  }

  function Trace(glob: Glob, ops: seq<Op>): seq<Event> {
    if ops == [] then []
    else
      var init, last := ops[..|ops| - 1], ops[|ops| - 1];
      Trace(glob, init) +
      match last
      case Scanned(view, o) => ScanEvents(glob, After(init), view, o)
      case BreakStarted(_, listed) => KillAll(After(init), listed)
  }

  /** A run: every set and dictionary is gone through in some order. */
  ghost predicate IsRun(ops: seq<Op>) {
    ops != [] ==> IsRun(ops[..|ops| - 1]) && InOrder(After(ops[..|ops| - 1]), ops[|ops| - 1])
  }

  // ---------------------------------------------------------------------
  // The two tables are inverse to each other
  // ---------------------------------------------------------------------

  predicate Inverse(m: Index) {
    && (forall name | name in m.running :: m.running[name] != {})
    && (forall name | name in m.running :: forall p | p in m.running[name] :: p in m.known && m.known[p] == name)
    && (forall p | p in m.known :: m.known[p] in m.running && p in m.running[m.known[p]])
  }

  lemma DepartKeepsInverse(m: Index, pid: Pid)
    requires Inverse(m)
    ensures Inverse(Depart(m, pid))
  {
  }

  lemma ArriveKeepsInverse(view: View, m: Index, pid: Pid, name: string)
    requires Inverse(m) && pid !in m.known
    ensures Inverse(Arrive(view, m, pid, name))
  {
    var m' := Arrive(view, m, pid, name);
    assert pid in m'.running[name];
  }

  lemma {:induction false} DepartAllKeepsInverse(m: Index, pids: seq<Pid>)
    requires Inverse(m)
    ensures Inverse(DepartAll(m, pids))
  {
    if pids == [] {
    } else {
      DepartAllKeepsInverse(m, pids[..|pids| - 1]);
      DepartKeepsInverse(DepartAll(m, pids[..|pids| - 1]), pids[|pids| - 1]);
    }
  }

  ghost predicate AllNew(view: View, m: Index, pids: seq<Pid>) {
    && (forall p | p in pids :: p in view.snapshot && p !in m.known)
    && (forall i, j | 0 <= i < j < |pids| :: pids[i] != pids[j])
  }

  lemma AllNewPrefix(view: View, m: Index, pids: seq<Pid>)
    requires AllNew(view, m, pids) && pids != []
    ensures var init, last := pids[..|pids| - 1], pids[|pids| - 1];
            AllNew(view, m, init) && last in view.snapshot && last !in ArriveAll(view, m, init).known
  {
    ArriveAllKnown(view, m, pids[..|pids| - 1]);
  }

  lemma {:induction false} ArriveAllKeepsInverse(view: View, m: Index, pids: seq<Pid>)
    requires Inverse(m) && AllNew(view, m, pids)
    ensures Inverse(ArriveAll(view, m, pids))
  {
    if pids == [] {
    } else {
      var init, last := pids[..|pids| - 1], pids[|pids| - 1];
      AllNewPrefix(view, m, pids);
      ArriveAllKeepsInverse(view, m, init);
      ArriveKeepsInverse(view, ArriveAll(view, m, init), last, NameIn(view.snapshot, last));
    }
  }

  lemma LaunchedAreNew(m: Index, view: View, o: Orders)
    requires Ordered(m, view, o)
    ensures AllNew(view, DepartAll(m, o.exited), o.launched)
  {
    DepartAllKnown(m, o.exited);
  }

  /** After any run, `running` is exactly the inverse of `known` with no empty
      bucket, and the known pids are those of the last scan's snapshot. */
  lemma {:induction false} IndexIsInverse(ops: seq<Op>)
    requires IsRun(ops)
    ensures Inverse(After(ops))
    ensures ops != [] && ops[|ops| - 1].Scanned? ==> After(ops).known.Keys == ops[|ops| - 1].view.snapshot.Keys
  {
    if ops == [] {
    } else {
      var init, last := ops[..|ops| - 1], ops[|ops| - 1];
      IndexIsInverse(init);
      var m := After(init);
      match last
      case BreakStarted(_, _) =>
      case Scanned(view, o) =>
        DepartAllKeepsInverse(m, o.exited);
        LaunchedAreNew(m, view, o);
        ArriveAllKeepsInverse(view, DepartAll(m, o.exited), o.launched);
        ScanListsKnown(m, view, o);
    }
  }

  // ---------------------------------------------------------------------
  // Launches and exits alternate
  // ---------------------------------------------------------------------

  /** What a pid's launches and exits say: absent, present under a name, or out of step. */
  datatype Presence = Absent | Present(name: string) | OutOfStep

  function Observe(was: Presence, e: Event, pid: Pid): Presence {
    match e
    case Launch(p, name) => if p != pid then was else if was == Absent then Present(name) else OutOfStep
    case Exit(p, name) => if p != pid then was else if was == Present(name) then Absent else OutOfStep
    case _ => was
  }

  function PresenceOf(events: seq<Event>, pid: Pid): Presence {
    if events == [] then Absent else Observe(PresenceOf(events[..|events| - 1], pid), events[|events| - 1], pid)
  }

  function Continue(was: Presence, events: seq<Event>, pid: Pid): Presence {
    if events == [] then was else Observe(Continue(was, events[..|events| - 1], pid), events[|events| - 1], pid)
  }

  lemma {:induction false} PresenceConcat(a: seq<Event>, b: seq<Event>, pid: Pid)
    ensures PresenceOf(a + b, pid) == Continue(PresenceOf(a, pid), b, pid)
  {
    if b == [] {
      assert a + b == a;
    } else {
      assert (a + b)[..|a + b| - 1] == a + b[..|b| - 1];
      PresenceConcat(a, b[..|b| - 1], pid);
    }
  }

  lemma {:induction false} ContinueConcat(was: Presence, a: seq<Event>, b: seq<Event>, pid: Pid)
    ensures Continue(was, a + b, pid) == Continue(Continue(was, a, pid), b, pid)
  {
    if b == [] {
      assert a + b == a;
    } else {
      assert (a + b)[..|a + b| - 1] == a + b[..|b| - 1];
      ContinueConcat(was, a, b[..|b| - 1], pid);
    }
  }

  lemma {:induction false} ContinueQuiet(was: Presence, events: seq<Event>, pid: Pid)
    requires forall e | e in events :: !e.Launch? && !e.Exit?
    ensures Continue(was, events, pid) == was
  {
    if events == [] {
    } else {
      var init, last := events[..|events| - 1], events[|events| - 1];
      assert events == init + [last] && last in events;
      ContinueQuiet(was, init, pid);
    }
  }

  /** The presence that the index says. */
  function Stored(m: Index, pid: Pid): Presence {
    if pid in m.known then Present(m.known[pid]) else Absent
  }

  lemma ContinueOne(was: Presence, e: Event, pid: Pid)
    ensures Continue(was, [e], pid) == Observe(was, e, pid)
  {
    assert [e][..0] == [];
  }

  lemma ExitFollows(m: Index, p: Pid, pid: Pid)
    ensures Continue(Stored(m, pid), ExitOf(m, p), pid) == Stored(Depart(m, p), pid)
  {
    if p in m.known {
      ContinueOne(Stored(m, pid), Exit(p, m.known[p]), pid);
    }
  }

  lemma {:induction false} ExitsFollow(m: Index, pids: seq<Pid>, pid: Pid)
    ensures Continue(Stored(m, pid), ExitEvents(m, pids), pid) == Stored(DepartAll(m, pids), pid)
  {
    if pids == [] {
    } else {
      var init, last := pids[..|pids| - 1], pids[|pids| - 1];
      var mid := DepartAll(m, init);
      ExitsFollow(m, init, pid);
      ContinueConcat(Stored(m, pid), ExitEvents(m, init), ExitOf(mid, last), pid);
      ExitFollows(mid, last, pid);
    }
  }

  lemma ContinueLaunch(was: Presence, p: Pid, name: string, verdict: Option<Reason>, pid: Pid)
    ensures Continue(was, [Launch(p, name)] + Block(verdict, p, name), pid) == Observe(was, Launch(p, name), pid)
  {
    ContinueConcat(was, [Launch(p, name)], Block(verdict, p, name), pid);
    ContinueOne(was, Launch(p, name), pid);
    ContinueQuiet(Observe(was, Launch(p, name), pid), Block(verdict, p, name), pid);
  }

  lemma {:induction false} LaunchesFollow(glob: Glob, view: View, m: Index, pids: seq<Pid>, pid: Pid)
    requires AllNew(view, m, pids)
    ensures Continue(Stored(m, pid), LaunchEvents(glob, view, m, pids), pid) == Stored(ArriveAll(view, m, pids), pid)
  {
    if pids == [] {
    } else {
      var init, last := pids[..|pids| - 1], pids[|pids| - 1];
      var mid, name := ArriveAll(view, m, init), NameIn(view.snapshot, last);
      AllNewPrefix(view, m, pids);
      LaunchesFollow(glob, view, m, init, pid);
      ContinueConcat(Stored(m, pid), LaunchEvents(glob, view, m, init), LaunchOf(glob, view, mid, last), pid);
      ContinueLaunch(Stored(mid, pid), last, name, Judge(glob, view, mid, name), pid);
    }
  }

  lemma {:induction false} ExistingIsQuiet(glob: Glob, view: View, m: Index, pids: seq<Pid>)
    ensures forall e | e in ExistingEvents(glob, view, m, pids) :: !e.Launch? && !e.Exit? && (e.Blocked? || e.Killed?)
  {
    if pids == [] {
    } else {
      ExistingIsQuiet(glob, view, m, pids[..|pids| - 1]);
    }
  }

  lemma {:induction false} KillAllIsQuiet(m: Index, pids: seq<Pid>)
    ensures forall e | e in KillAll(m, pids) :: !e.Launch? && !e.Exit?
  {
    if pids == [] {
    } else {
      KillAllIsQuiet(m, pids[..|pids| - 1]);
    }
  }

  lemma ScanFollows(glob: Glob, m: Index, view: View, o: Orders, pid: Pid)
    requires Ordered(m, view, o)
    ensures Continue(Stored(m, pid), ScanEvents(glob, m, view, o), pid) == Stored(Scan(m, view, o), pid)
  {
    ScanListsKnown(m, view, o);
    var mid, after := DepartAll(m, o.exited), Scan(m, view, o);
    var a, b := ExitEvents(m, o.exited), LaunchEvents(glob, view, mid, o.launched);
    var c, d := KioskEvents(glob, view.rules, after.running), ExistingEvents(glob, view, after, o.listed);
    ExitsFollow(m, o.exited, pid);
    LaunchedAreNew(m, view, o);
    LaunchesFollow(glob, view, mid, o.launched, pid);
    ContinueConcat(Stored(m, pid), a, b, pid);
    ExistingIsQuiet(glob, view, after, o.listed);
    ContinueConcat(Stored(m, pid), a + b, c + d, pid);
    ContinueQuiet(Stored(after, pid), c + d, pid);
  }

  /** Over any run a pid's events alternate between a launch and the exit under
      the same name, and say what the index holds. */
  lemma {:induction false} LaunchesAndExitsAlternate(glob: Glob, ops: seq<Op>, pid: Pid)
    requires IsRun(ops)
    ensures PresenceOf(Trace(glob, ops), pid) == Stored(After(ops), pid)
  {
    if ops == [] {
    } else {
      var init, last := ops[..|ops| - 1], ops[|ops| - 1];
      LaunchesAndExitsAlternate(glob, init, pid);
      match last
      case BreakStarted(_, listed) =>
        KillAllIsQuiet(After(init), listed);
        PresenceConcat(Trace(glob, init), KillAll(After(init), listed), pid);
        ContinueQuiet(Stored(After(init), pid), KillAll(After(init), listed), pid);
      case Scanned(view, o) =>
        PresenceConcat(Trace(glob, init), ScanEvents(glob, After(init), view, o), pid);
        ScanFollows(glob, After(init), view, o, pid);
    }
  }

  // ---------------------------------------------------------------------
  // Enforcement is exact
  // ---------------------------------------------------------------------

  /** The breaks that a launch ends were over already. */
  lemma JudgeUnmoved(glob: Glob, view: View, m: Index, pids: seq<Pid>, name: string)
    ensures Judge(glob, view, ArriveAll(view, m, pids), name) == Judge(glob, view, m, name)
  {
    ArriveAllBreak(view, m, pids);
  }

  predicate IsBlocked(verdict: Option<Reason>, pid: Pid, name: string, e: Event) {
    verdict.Some? && (e == Blocked(pid, name, verdict.value) || e == Killed(pid, name))
  }

  lemma BlockExactly(verdict: Option<Reason>, pid: Pid, name: string, e: Event)
    ensures e in Block(verdict, pid, name) <==> IsBlocked(verdict, pid, name, e)
  {
  }

  lemma InConcat(a: seq<Event>, b: seq<Event>, e: Event)
    ensures e in a + b <==> e in a || e in b
  {
  }

  /** The verdict on a pid of the snapshot, and whether the event carries it out. */
  predicate BlockedByView(glob: Glob, view: View, m: Index, e: Event)
    requires e.Blocked? || e.Killed?
  {
    var name := NameIn(view.snapshot, e.pid);
    IsBlocked(Judge(glob, view, m, name), e.pid, name, e)
  }

  lemma LaunchBlocks(glob: Glob, view: View, m: Index, pids: seq<Pid>, pid: Pid, e: Event)
    requires e.Blocked? || e.Killed?
    ensures e in LaunchOf(glob, view, ArriveAll(view, m, pids), pid) <==>
            e.pid == pid && BlockedByView(glob, view, m, e)
  {
    var name := NameIn(view.snapshot, pid);
    JudgeUnmoved(glob, view, m, pids, name);
    BlockExactly(Judge(glob, view, m, name), pid, name, e);
  }

  lemma {:induction false} LaunchBlocksExactly(glob: Glob, view: View, m: Index, pids: seq<Pid>, e: Event)
    requires e.Blocked? || e.Killed?
    ensures e in LaunchEvents(glob, view, m, pids) <==> e.pid in pids && BlockedByView(glob, view, m, e)
  {
    if pids == [] {
    } else {
      var init, last := pids[..|pids| - 1], pids[|pids| - 1];
      LaunchBlocksExactly(glob, view, m, init, e);
      LaunchBlocks(glob, view, m, init, last, e);
      InConcat(LaunchEvents(glob, view, m, init), LaunchOf(glob, view, ArriveAll(view, m, init), last), e);
      assert pids == init + [last];
    }
  }

  lemma {:induction false} ExistingBlocksExactly(glob: Glob, view: View, m: Index, pids: seq<Pid>, e: Event)
    requires e.Blocked? || e.Killed?
    ensures e in ExistingEvents(glob, view, m, pids) <==>
            e.pid in pids && IsBlocked(Judge(glob, view, m, NameIn(m.known, e.pid)), e.pid, NameIn(m.known, e.pid), e)
  {
    if pids == [] {
    } else {
      var init, last := pids[..|pids| - 1], pids[|pids| - 1];
      assert pids == init + [last];
      ExistingBlocksExactly(glob, view, m, init, e);
      BlockExactly(Judge(glob, view, m, NameIn(m.known, last)), last, NameIn(m.known, last), e);
    }
  }

  lemma {:induction false} ExitsBlockNothing(m: Index, pids: seq<Pid>)
    ensures forall e | e in ExitEvents(m, pids) :: e.Exit?
  {
    if pids == [] {
    } else {
      ExitsBlockNothing(m, pids[..|pids| - 1]);
    }
  }

  /** What must be killed: the schedule is locked, a break is on or the policy
      forbids the name, and no override is active. */
  predicate Forbidden(glob: Glob, r: Rules, onBreak: bool, name: string) {
    && !IsOff(r) && !r.overrideActive
    && (r.scheduleLocked || onBreak
        || (r.mode == "kiosk" && !glob(name, r.kioskApp))
        || (r.mode == "whitelist" && !LockdownTimers.MatchesAny(glob, name, r.whitelist))
        || (r.mode == "blacklist" && LockdownTimers.MatchesAny(glob, name, r.blacklist)))
  }

  lemma TrackBlocksExactly(glob: Glob, m: Index, view: View, o: Orders, e: Event)
    requires e.Blocked? || e.Killed?
    ensures e in TrackEvents(glob, m, view, o) <==>
            e.pid in o.launched && BlockedByView(glob, view, m, e)
  {
    DepartAllKnown(m, o.exited);
    ExitsBlockNothing(m, o.exited);
    LaunchBlocksExactly(glob, view, DepartAll(m, o.exited), o.launched, e);
  }

  lemma AfterScanBlocksExactly(glob: Glob, m: Index, view: View, o: Orders, e: Event)
    requires e.Blocked? || e.Killed?
    ensures var after := Scan(m, view, o);
            e in ExistingEvents(glob, view, after, o.listed) <==>
            e.pid in o.listed && IsBlocked(Judge(glob, view, m, NameIn(after.known, e.pid)), e.pid,
                NameIn(after.known, e.pid), e)
  {
    var after := Scan(m, view, o);
    DepartAllKnown(m, o.exited);
    ExistingBlocksExactly(glob, view, after, o.listed, e);
    JudgeUnmoved(glob, view, DepartAll(m, o.exited), o.launched, NameIn(after.known, e.pid));
  }

  /** Both passes block and kill for the same reason, and the second reaches every
      known process. */
  lemma KillsAre(glob: Glob, m: Index, view: View, o: Orders, e: Event)
    requires Ordered(m, view, o) && (e.Blocked? || e.Killed?)
    ensures var after := Scan(m, view, o);
            e in ScanEvents(glob, m, view, o) <==>
            e.pid in after.known
                && IsBlocked(Judge(glob, view, m, NameIn(after.known, e.pid)), e.pid, NameIn(after.known, e.pid), e)
  {
    TrackBlocksExactly(glob, m, view, o, e);
    AfterScanBlocksExactly(glob, m, view, o, e);
    ScanListsKnown(m, view, o);
    var after := Scan(m, view, o);
    assert e.pid in o.launched ==>
             e.pid in after.known && NameIn(view.snapshot, e.pid) == NameIn(after.known, e.pid);
  }

  /** One scan kills precisely the known processes whose name is forbidden. */
  lemma EnforcementIsExact(glob: Glob, m: Index, view: View, o: Orders, pid: Pid, name: string)
    requires Ordered(m, view, o)
    ensures var after := Scan(m, view, o);
            Killed(pid, name) in ScanEvents(glob, m, view, o) <==>
            pid in after.known && after.known[pid] == name
            && Forbidden(glob, view.rules, m.onBreak && view.now < m.breakUntil, name)
  {
    KillsAre(glob, m, view, o, Killed(pid, name));
  }

  /** The reason given is the first of three that applies: the schedule, a break that
      is not over, the policy. */
  lemma ReasonIsFirst(glob: Glob, m: Index, view: View, o: Orders, pid: Pid, name: string, reason: Reason)
    requires Ordered(m, view, o)
    ensures var after, r := Scan(m, view, o), view.rules;
            Blocked(pid, name, reason) in ScanEvents(glob, m, view, o) <==>
            && pid in after.known && after.known[pid] == name
            && Forbidden(glob, r, m.onBreak && view.now < m.breakUntil, name)
            && reason == if r.scheduleLocked then ScheduleLocked
                         else if m.onBreak && view.now < m.breakUntil then BreakDue else Policy
  {
    KillsAre(glob, m, view, o, Blocked(pid, name, reason));
  }

  /** A break is over once a scan that launches something finds its time past, while
      enforcement is on, not overridden and the schedule is not locked. */
  lemma {:induction false} BreakEndsExactly(view: View, m: Index, pids: seq<Pid>)
    ensures var after, r := ArriveAll(view, m, pids), view.rules;
            after.onBreak <==>
            && m.onBreak
            && !(pids != [] && r.mode != "off" && !r.overrideActive && !r.scheduleLocked && view.now >= m.breakUntil)
    ensures ArriveAll(view, m, pids).breakUntil == m.breakUntil
  {
    if pids != [] { BreakEndsExactly(view, m, pids[..|pids| - 1]); }
  }

  lemma ScanEndsBreak(view: View, m: Index, o: Orders)
    requires Ordered(m, view, o)
    ensures var after, r := Scan(m, view, o), view.rules;
            && after.breakUntil == m.breakUntil
            && (after.onBreak <==>
                && m.onBreak
                && !((exists p :: p in view.snapshot && p !in m.known)
                     && r.mode != "off" && !r.overrideActive && !r.scheduleLocked && view.now >= m.breakUntil))
  {
    DepartAllKnown(m, o.exited);
    BreakEndsExactly(view, DepartAll(m, o.exited), o.launched);
    assert o.launched != [] <==> exists p :: p in view.snapshot && p !in m.known by {
      if o.launched != [] { assert o.launched[0] in o.launched; }
      if p :| p in view.snapshot && p !in m.known { assert p in o.launched; }
    }
  }

  /** In kiosk mode with an application set and the schedule not locked, a scan
      restarts the application exactly when no process of the snapshot runs under a
      name that matches it; in any other mode it restarts nothing. */
  lemma KioskRestartExactly(glob: Glob, ops: seq<Op>, view: View, o: Orders, app: string)
    requires IsRun(ops) && Ordered(After(ops), view, o)
    ensures var after, r := Scan(After(ops), view, o), view.rules;
            KioskRestart(app) in ScanEvents(glob, After(ops), view, o) <==>
            && r.mode == "kiosk" && app == r.kioskApp && app != "" && !r.scheduleLocked
            && forall p | p in after.known :: !glob(after.known[p], app)
  {
    var m := After(ops);
    RestartsOnlyForKiosk(glob, m, view, o, app);
    ScanIsInverse(ops, view, o);
    RunningNamesAre(Scan(m, view, o), glob, app);
  }

  lemma RestartsOnlyForKiosk(glob: Glob, m: Index, view: View, o: Orders, app: string)
    ensures KioskRestart(app) in ScanEvents(glob, m, view, o) <==>
            KioskRestart(app) in KioskEvents(glob, view.rules, Scan(m, view, o).running)
  {
    var mid, after := DepartAll(m, o.exited), Scan(m, view, o);
    var exits, launches := ExitEvents(m, o.exited), LaunchEvents(glob, view, mid, o.launched);
    var kiosk, existing := KioskEvents(glob, view.rules, after.running), ExistingEvents(glob, view, after, o.listed);
    ExitsBlockNothing(m, o.exited);
    LaunchesStage(glob, view, mid, o.launched);
    ExistingIsQuiet(glob, view, after, o.listed);
    InConcat(exits + launches, kiosk + existing, KioskRestart(app));
    InConcat(exits, launches, KioskRestart(app));
    InConcat(kiosk, existing, KioskRestart(app));
  }

  lemma ScanIsInverse(ops: seq<Op>, view: View, o: Orders)
    requires IsRun(ops) && Ordered(After(ops), view, o)
    ensures Inverse(Scan(After(ops), view, o))
  {
    var next := ops + [Scanned(view, o)];
    assert next[..|ops|] == ops;
    IndexIsInverse(next);
  }

  lemma RunningNamesAre(m: Index, glob: Glob, app: string)
    requires Inverse(m)
    ensures (exists name | name in m.running :: glob(name, app)) <==>
            exists p :: p in m.known && glob(m.known[p], app)
  {
    if name :| name in m.running && glob(name, app) {
      var p :| p in m.running[name];
      assert m.known[p] == name;
    }
  }

  lemma {:induction false} BreakKillsExactly(m: Index, pids: seq<Pid>, e: Event)
    ensures e in KillAll(m, pids) <==> e.Killed? && e.pid in pids && e.name == NameIn(m.known, e.pid)
  {
    if pids != [] {
      var init, last := pids[..|pids| - 1], pids[|pids| - 1];
      assert pids == init + [last];
      BreakKillsExactly(m, init, e);
      InConcat(KillAll(m, init), [Killed(last, NameIn(m.known, last))], e);
    }
  }

  function RunFrom(m: Index, ops: seq<Op>): Index {
    if ops == [] then m else Step(RunFrom(m, ops[..|ops| - 1]), ops[|ops| - 1])
  }

  ghost predicate ScansBefore(ops: seq<Op>, until: real) {
    forall n | 0 <= n < |ops| :: ops[n].Scanned? && ops[n].view.now < until
  }

  lemma {:induction false} BreakLasts(m: Index, listed: seq<Pid>, until: real, ops: seq<Op>)
    requires ScansBefore(ops, until)
    ensures var later := RunFrom(Step(m, BreakStarted(until, listed)), ops);
            later.onBreak && later.breakUntil == until
  {
    if ops == [] {
    } else {
      var init, last := ops[..|ops| - 1], ops[|ops| - 1];
      BreakLasts(m, listed, until, init);
      var was := RunFrom(Step(m, BreakStarted(until, listed)), init);
      DepartAllKnown(was, last.orders.exited);
      BreakEndsExactly(last.view, DepartAll(was, last.orders.exited), last.orders.launched);
    }
  }

  /** Starting a break kills every known process, and until it is over every scan
      kills all it finds again, unless enforcement is off or overridden. */
  lemma BreakIsEnforced(glob: Glob, m: Index, listed: seq<Pid>, until: real, ops: seq<Op>, view: View, o: Orders,
                        pid: Pid)
    requires Enumerates(listed, m.known.Keys) && ScansBefore(ops, until) && view.now < until
    requires Ordered(RunFrom(Step(m, BreakStarted(until, listed)), ops), view, o)
    ensures pid in m.known ==> Killed(pid, m.known[pid]) in KillAll(m, listed)
    ensures var later := RunFrom(Step(m, BreakStarted(until, listed)), ops);
            var after := Scan(later, view, o);
            pid in view.snapshot && view.rules.mode != "off" && !view.rules.overrideActive
            ==> pid in after.known && Killed(pid, after.known[pid]) in ScanEvents(glob, later, view, o)
  {
    if pid in m.known { BreakKillsExactly(m, listed, Killed(pid, m.known[pid])); }
    BreakLasts(m, listed, until, ops);
    var later := RunFrom(Step(m, BreakStarted(until, listed)), ops);
    ScanListsKnown(later, view, o);
    if pid in view.snapshot {
      EnforcementIsExact(glob, later, view, o, pid, Scan(later, view, o).known[pid]);
    }
  }

  /** When in a scan an exit, a launch and a restart of the kiosk application come. */
  function Stage(e: Event): nat {
    match e
    case Exit(_, _) => 0
    case Launch(_, _) => 1
    case KioskRestart(_) => 2
    case _ => 3
  }

  ghost predicate Staged(events: seq<Event>) {
    forall i, j | 0 <= i < j < |events| && Stage(events[i]) < 3 && Stage(events[j]) < 3 ::
      Stage(events[i]) <= Stage(events[j])
  }

  lemma StagedJoins(a: seq<Event>, b: seq<Event>, n: nat)
    requires Staged(a) && Staged(b)
    requires (forall e | e in a :: Stage(e) == 3 || Stage(e) <= n) && forall e | e in b :: Stage(e) >= n
    ensures Staged(a + b)
  {
    var all := a + b;
    forall i, j | 0 <= i < j < |all| && Stage(all[i]) < 3 && Stage(all[j]) < 3 ensures Stage(all[i]) <= Stage(all[j]) {
      if i < |a| <= j { assert a[i] in a && b[j - |a|] in b; }
    }
  }

  lemma {:induction false} LaunchesStage(glob: Glob, view: View, m: Index, pids: seq<Pid>)
    ensures forall e | e in LaunchEvents(glob, view, m, pids) :: Stage(e) == 1 || Stage(e) == 3
  {
    if pids != [] { LaunchesStage(glob, view, m, pids[..|pids| - 1]); }
  }

  lemma OneStage(events: seq<Event>, n: nat)
    requires forall e | e in events :: Stage(e) == n || Stage(e) == 3
    ensures Staged(events)
  {
    forall i | 0 <= i < |events| ensures Stage(events[i]) == n || Stage(events[i]) == 3 { assert events[i] in events; }
  }

  /** In every scan all exits come before all launches, and those before a restart of
      the kiosk application. */
  lemma ScanInStages(glob: Glob, m: Index, view: View, o: Orders)
    ensures Staged(ScanEvents(glob, m, view, o))
  {
    var mid, after := DepartAll(m, o.exited), Scan(m, view, o);
    var exits, launches := ExitEvents(m, o.exited), LaunchEvents(glob, view, mid, o.launched);
    var kiosk, existing := KioskEvents(glob, view.rules, after.running), ExistingEvents(glob, view, after, o.listed);
    ExitsBlockNothing(m, o.exited);
    LaunchesStage(glob, view, mid, o.launched);
    ExistingIsQuiet(glob, view, after, o.listed);
    OneStage(exits, 0);
    OneStage(launches, 1);
    OneStage(kiosk, 2);
    OneStage(existing, 3);
    StagedJoins(exits, launches, 0);
    StagedJoins(kiosk, existing, 2);
    StagedJoins(exits + launches, kiosk + existing, 1);
  }

  // ---------------------------------------------------------------------
  // What a used-up timer kills
  // ---------------------------------------------------------------------

  /** With the tables inverse to each other, as after every run, a tick kills for a
      used-up timer exactly the known processes whose own name matches it. */
  lemma TimerKillsByName(ops: seq<Op>, patterns: map<string, seq<string>>, glob: Glob, pid: Pid, tid: string)
    requires IsRun(ops)
    ensures var m := After(ops);
            pid in m.known && LockdownTimers.UsesTimer(patterns, glob, m.running, pid, tid) <==>
            pid in m.known && tid in patterns && LockdownTimers.MatchesAny(glob, m.known[pid], patterns[tid])
  {
    IndexIsInverse(ops);
  }

  /** Two scans between which a pid was taken over: the index keeps the old name,
      and a whitelist of it lets the new program run. */
  lemma TakenOverPidKeepsName(glob: Glob, pid: Pid, was: string, now: string, rules: Rules, at: real)
    requires was != now && rules.mode == "whitelist" && rules.whitelist == [was]
    requires !rules.scheduleLocked && !rules.overrideActive
    requires glob(was, was) && !glob(now, was)
    ensures var ops := [Scanned(View(rules, at, map[pid := was]), Orders([], [pid], [pid])),
                        Scanned(View(rules, at, map[pid := now]), Orders([], [], [pid]))];
            && IsRun(ops) && After(ops).known == map[pid := was]
            && !IsAllowed(glob, rules, now)
            && Killed(pid, now) !in Trace(glob, ops) && Killed(pid, was) !in Trace(glob, ops)
  {
    var v1, o1 := View(rules, at, map[pid := was]), Orders([], [pid], [pid]);
    var v2, o2 := View(rules, at, map[pid := now]), Orders([], [], [pid]);
    var ops := [Scanned(v1, o1), Scanned(v2, o2)];
    assert ops[..1] == [Scanned(v1, o1)] && ops[..1][..0] == [];
    assert Ordered(EMPTY, v1, o1);
    ScanListsKnown(EMPTY, v1, o1);
    var m := Scan(EMPTY, v1, o1);
    assert After(ops[..1]) == m && m.known == map[pid := was];
    assert Ordered(m, v2, o2);
    ScanListsKnown(m, v2, o2);
    assert !m.onBreak;
    assert LockdownTimers.MatchesAny(glob, was, rules.whitelist) by { assert glob(was, rules.whitelist[0]); }
    forall name: string ensures Killed(pid, name) !in Trace(glob, ops) {
      KillsAre(glob, EMPTY, v1, o1, Killed(pid, name));
      KillsAre(glob, m, v2, o2, Killed(pid, name));
      assert Trace(glob, ops[..1]) == [] + ScanEvents(glob, EMPTY, v1, o1);
    }
  }
}
