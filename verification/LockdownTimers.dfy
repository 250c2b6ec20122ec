/**
 Screen-time budgets (agent/app_monitor.py, LockdownConfig and AppMonitor): the
 controller pushes budgets in minutes, a timer loop counts them down, and a push
 must not refill a budget that is being used up. Glob matching and the timers'
 pattern table are parameters.
 */
module LockdownTimers {
  datatype Pid = Pid(n: int)

  /** The parts of a pushed configuration that the timers use. */
  datatype Push = Push(off: bool, timers: map<string, int>, warnings: map<string, int>)

  /** The configuration in force with its runtime state. */
  datatype Clock = Clock(push: Push, runtime: map<string, int>, warned: set<string>)

  const OFF := Push(true, map[], map[])
  const NEVER_CONFIGURED := Clock(OFF, map[], {})
  const DEFAULT_WARNING := 5

  function Max0(x: int): int {
    if x < 0 then 0 else x
  }

  /** The minutes left of a timer when `budget` is pushed over `was`. */
  function Merged(was: Clock, tid: string, budget: int): int {
    if tid !in was.runtime then budget
    else if tid in was.push.timers && budget > was.push.timers[tid] then budget
    else if was.runtime[tid] <= budget then was.runtime[tid]
    else budget
  }

  function Merge(was: Clock, push: Push): Clock {
    Clock(push, map tid | tid in push.timers :: Merged(was, tid, push.timers[tid]), was.warned * push.timers.Keys)
  }

  predicate Counts(c: Clock, active: set<string>, tid: string) {
    !c.push.off && tid in active && tid in c.push.timers
  }

  function Left(c: Clock, tid: string): int {
    if tid in c.runtime then c.runtime[tid] else if tid in c.push.timers then c.push.timers[tid] else 0
  }

  function Threshold(c: Clock, tid: string): int {
    if tid in c.push.warnings then c.push.warnings[tid] else DEFAULT_WARNING
  }

  /** The timers a tick warns about. */
  predicate Warns(c: Clock, active: set<string>, tid: string) {
    && Counts(c, active, tid) && tid !in c.warned
    && Max0(Left(c, tid) - 1) != 0 && Max0(Left(c, tid) - 1) <= Threshold(c, tid)
  }

  /** The timers whose applications a tick kills. */
  predicate Expires(c: Clock, active: set<string>, tid: string) {
    Counts(c, active, tid) && Max0(Left(c, tid) - 1) == 0
  }

  function Tick(c: Clock, active: set<string>): Clock {
    Clock(c.push,
          map tid | tid in c.runtime.Keys + (set t | t in active && Counts(c, active, t)) ::
            if Counts(c, active, tid) then Max0(Left(c, tid) - 1) else c.runtime[tid],
          c.warned + set tid | tid in active && Warns(c, active, tid))
  }

  datatype Op = Pushed(push: Push) | Ticked(active: set<string>)

  function Step(c: Clock, op: Op): Clock {
    match op
    case Pushed(push) => Merge(c, push)
    case Ticked(active) => Tick(c, active)
  }

  /** One agent session without an earlier configuration on disk. */
  function Run(ops: seq<Op>): Clock {
    if ops == [] then NEVER_CONFIGURED else Step(Run(ops[..|ops| - 1]), ops[|ops| - 1])
  }

  /** Timers with an application running whose name matches one of their patterns. */
  function ActiveTimers(patterns: map<string, seq<string>>, matches: (string, string) -> bool,
                        names: set<string>): set<string> {
    set tid | tid in patterns && exists name | name in names :: MatchesAny(matches, name, patterns[tid])
  }

  /** The process runs under a name that matches one of the timer's patterns. */
  predicate UsesTimer(patterns: map<string, seq<string>>, matches: (string, string) -> bool,
                      running: map<string, set<Pid>>, p: Pid, tid: string) {
    tid in patterns && exists name | name in running :: p in running[name] && MatchesAny(matches, name, patterns[tid])
  }

  predicate MatchesAny(matches: (string, string) -> bool, name: string, patterns: seq<string>) {
    exists k | 0 <= k < |patterns| :: matches(name, patterns[k])
  }

  // ---------------------------------------------------------------------
  // The monitor
  // ---------------------------------------------------------------------

  class LockdownConfig {
    const push: Push
    var runtime: map<string, int>
    var warned: set<string>

    ghost function Now(): Clock
      reads this
    {
      Clock(push, runtime, warned)
    }

    constructor FromDict(push: Push)
      ensures Now() == Clock(push, push.timers, {})
    {
      this.push := push;
      runtime, warned := push.timers, {};
    }

    method DecrementTimer(tid: string) returns (left: int)
      modifies this`runtime
      ensures left == Max0(Left(old(Now()), tid) - 1) && runtime == old(runtime)[tid := left]
    {
      var current := if tid in runtime then runtime[tid] else if tid in push.timers then push.timers[tid] else 0;
      left := if current - 1 < 0 then 0 else current - 1;
      runtime := runtime[tid := left];
    }
  }

  class AppMonitor {
    var config: LockdownConfig
    const patterns: map<string, seq<string>>
    const matches: (string, string) -> bool

    constructor (patterns: map<string, seq<string>>, matches: (string, string) -> bool)
      ensures fresh(config) && config.Now() == NEVER_CONFIGURED
      ensures this.patterns == patterns && this.matches == matches
    {
      config := new LockdownConfig.FromDict(OFF);
      this.patterns, this.matches := patterns, matches;
    }

    /** `next` is freshly parsed: its runtime is its budgets. */
    method ApplyConfig(next: LockdownConfig)
      requires next != config && next.runtime == next.push.timers && next.warned == {}
      modifies this, next
      ensures config == next && config.Now() == Merge(old(config.Now()), next.push)
    {
      var current, timers := config, next.push.timers;
      ghost var before := config.Now();
      var todo := timers.Keys;
      while todo != {}
        invariant todo <= timers.Keys && next.runtime.Keys == timers.Keys && next.warned == {}
        invariant config == current && config.Now() == before
        invariant forall t | t in timers :: next.runtime[t] == if t in todo then timers[t]
                  else Merged(before, t, timers[t])
        decreases |todo|
      {
        var tid :| tid in todo;
        todo := todo - {tid};
        var minutes := timers[tid];
        if tid !in config.runtime {
          next.runtime := next.runtime[tid := minutes];
        } else if tid in config.push.timers && minutes > config.push.timers[tid] {
          next.runtime := next.runtime[tid := minutes];
        } else if config.runtime[tid] <= minutes {
          next.runtime := next.runtime[tid := config.runtime[tid]];
        } else {
          next.runtime := next.runtime[tid := minutes];
        }
      }
      next.warned := config.warned * timers.Keys;
      config := next;
    }

    method ActiveTimerIds(names: set<string>) returns (ids: set<string>)
      ensures ids == ActiveTimers(patterns, matches, names)
    {
      ids := {};
      var todo := names;
      while todo != {}
        invariant todo <= names && ids == ActiveTimers(patterns, matches, names - todo)
        decreases |todo|
      {
        var name :| name in todo;
        ActiveTimersExtend(patterns, matches, names - todo, name);
        assert names - (todo - {name}) == (names - todo) + {name};
        todo := todo - {name};
        ids := ids + set tid | tid in patterns && MatchesAny(matches, name, patterns[tid]);
      }
      assert names - todo == names;
    }

    /** The known processes of the applications that use a timer. */
    method KillApps(tid: string, running: map<string, set<Pid>>, known: map<Pid, string>) returns (killed: set<Pid>)
      ensures forall p :: p in killed <==> p in known && UsesTimer(patterns, matches, running, p, tid)
    {
      killed := {};
      var todo := running.Keys;
      while tid in patterns && todo != {}
        invariant todo <= running.Keys
        invariant forall p | p in killed :: p in known && UsesTimer(patterns, matches, running, p, tid)
        invariant tid in patterns ==>
                    forall name, p | name in running && name !in todo && MatchesAny(matches, name, patterns[tid]) ::
                      p in running[name] && p in known ==> p in killed
        decreases |todo|
      {
        var name :| name in todo;
        todo := todo - {name};
        if MatchesAny(matches, name, patterns[tid]) {
          killed := killed + set p | p in running[name] && p in known;
        }
      }
    }

    /** One active timer of a tick. */
    method CountDown(tid: string, sofar: (set<string>, set<string>)) returns (next: (set<string>, set<string>))
      modifies config
      ensures config == old(config)
      ensures Tally(config.Now(), next.0, next.1) == CountOne(Tally(old(config.Now()), sofar.0, sofar.1), tid)
    {
      next := sofar;
      if tid !in config.push.timers {
        return;
      }
      var left := config.DecrementTimer(tid);
      var threshold := if tid in config.push.warnings then config.push.warnings[tid] else DEFAULT_WARNING;
      if left == 0 {
        next := (sofar.0, sofar.1 + {tid});
      } else if left <= threshold && tid !in config.warned {
        config.warned := config.warned + {tid};
        next := (sofar.0 + {tid}, sofar.1);
      }
    }

    /** One active timer of a tick, and the processes killed if it is used up. */
    method TickOne(tid: string, running: map<string, set<Pid>>, known: map<Pid, string>,
                   sofar: (set<string>, set<string>))
      returns (next: (set<string>, set<string>), killed: set<Pid>)
      requires tid !in sofar.1
      modifies config
      ensures config == old(config)
      ensures Tally(config.Now(), next.0, next.1) == CountOne(Tally(old(config.Now()), sofar.0, sofar.1), tid)
      ensures killed == KilledFor(patterns, matches, running, known, next.1 - sofar.1)
    {
      next := CountDown(tid, sofar);
      killed := {};
      if tid in next.1 {
        killed := KillApps(tid, running, known);
        assert next.1 - sofar.1 == {tid};
      } else {
        assert next.1 - sofar.1 == {};
      }
    }

    /** All active timers of a tick, in any order. */
    method TickActive(active: set<string>, running: map<string, set<Pid>>, known: map<Pid, string>)
      returns (warnings: set<string>, expired: set<string>, killed: set<Pid>)
      requires !config.push.off
      modifies config
      ensures config == old(config)
      ensures CountedDown(old(config.Now()), active, active, Tally(config.Now(), warnings, expired))
      ensures killed == KilledFor(patterns, matches, running, known, expired)
    {
      warnings, expired, killed := {}, {}, {};
      ghost var before := config.Now();
      var todo := active;
      while todo != {}
        invariant todo <= active && config == old(config) && expired !! todo
        invariant CountedDown(before, active, active - todo, Tally(config.Now(), warnings, expired))
        invariant killed == KilledFor(patterns, matches, running, known, expired)
        decreases |todo|
      {
        var tid :| tid in todo;
        CountDownOne(before, active, active - todo, Tally(config.Now(), warnings, expired), tid);
        assert active - (todo - {tid}) == (active - todo) + {tid};
        todo := todo - {tid};
        var next, more := TickOne(tid, running, known, (warnings, expired));
        KilledForMore(patterns, matches, running, known, expired, next.1 - expired);
        assert expired + (next.1 - expired) == next.1;
        warnings, expired, killed := next.0, next.1, killed + more;
      }
      assert active - {} == active;
    }

    /** One minute of the timer loop: which timers it warns about, which are used
        up, and which processes it kills for those. */
    method TickTimers(running: map<string, set<Pid>>, known: map<Pid, string>)
      returns (warnings: set<string>, expired: set<string>, killed: set<Pid>)
      modifies config
      ensures config.Now() == Tick(old(config.Now()), ActiveTimers(patterns, matches, running.Keys))
      ensures forall t :: t in warnings <==> Warns(old(config.Now()), ActiveTimers(patterns, matches, running.Keys), t)
      ensures forall t :: t in expired <==> Expires(old(config.Now()), ActiveTimers(patterns, matches, running.Keys), t)
      ensures killed == KilledFor(patterns, matches, running, known, expired)
    {
      warnings, expired, killed := {}, {}, {};
      ghost var before := config.Now();
      var active := ActiveTimerIds(running.Keys);
      if !config.push.off {
        warnings, expired, killed := TickActive(active, running, known);
      }
      CountedDownAll(before, active, Tally(config.Now(), warnings, expired));
    }
  }

  /** The known processes that use one of these timers. */
  ghost function KilledFor(patterns: map<string, seq<string>>, matches: (string, string) -> bool,
                           running: map<string, set<Pid>>, known: map<Pid, string>, expired: set<string>): set<Pid> {
    set p | p in known && exists t :: t in expired && UsesTimer(patterns, matches, running, p, t)
  }

  lemma KilledForMore(patterns: map<string, seq<string>>, matches: (string, string) -> bool,
                      running: map<string, set<Pid>>, known: map<Pid, string>, some: set<string>, more: set<string>)
    ensures KilledFor(patterns, matches, running, known, some + more) ==
            KilledFor(patterns, matches, running, known, some) + KilledFor(patterns, matches, running, known, more)
  {
  }

  /** The configuration within a tick, and the timers warned about and expired so far. */
  datatype Tally = Tally(clock: Clock, warnings: set<string>, expired: set<string>)

  function CountOne(t: Tally, tid: string): Tally {
    var c := t.clock;
    if tid !in c.push.timers then t
    else
      var left := Max0(Left(c, tid) - 1);
      var c' := c.(runtime := c.runtime[tid := left]);
      if left == 0 then Tally(c', t.warnings, t.expired + {tid})
      else if left <= Threshold(c, tid) && tid !in c.warned then
        Tally(c'.(warned := c.warned + {tid}), t.warnings + {tid}, t.expired)
      else Tally(c', t.warnings, t.expired)
  }

  /** A tick that has dealt with the timers in `done`. */
  ghost predicate CountedDown(c: Clock, active: set<string>, done: set<string>, t: Tally) {
    t.clock.push == c.push && forall tid :: CountedTimer(c, active, done, t, tid)
  }

  predicate CountedTimer(c: Clock, active: set<string>, done: set<string>, t: Tally, tid: string) {
    var counted := tid in done && Counts(c, active, tid);
    && (tid in t.clock.runtime <==> tid in c.runtime || counted)
    && (tid in t.clock.runtime ==> t.clock.runtime[tid] == if counted then Max0(Left(c, tid) - 1) else c.runtime[tid])
    && (tid in t.warnings <==> tid in done && Warns(c, active, tid))
    && (tid in t.expired <==> tid in done && Expires(c, active, tid))
    && (tid in t.clock.warned <==> tid in c.warned || tid in t.warnings)
  }

  lemma CountDownOne(c: Clock, active: set<string>, done: set<string>, t: Tally, tid: string)
    requires CountedDown(c, active, done, t) && !c.push.off && tid in active && tid !in done
    ensures CountedDown(c, active, done + {tid}, CountOne(t, tid))
  {
    forall k ensures CountedTimer(c, active, done + {tid}, CountOne(t, tid), k) {
      assert CountedTimer(c, active, done, t, k) && CountedTimer(c, active, done, t, tid);
    }
  }

  lemma CountedDownAll(c: Clock, active: set<string>, t: Tally)
    requires if c.push.off then t == Tally(c, {}, {}) else CountedDown(c, active, active, t)
    ensures t.clock == Tick(c, active)
    ensures forall tid :: tid in t.warnings <==> Warns(c, active, tid)
    ensures forall tid :: tid in t.expired <==> Expires(c, active, tid)
  {
    var after := Tick(c, active);
    forall tid
      ensures (tid in t.warnings <==> Warns(c, active, tid)) && (tid in t.expired <==> Expires(c, active, tid))
      ensures (tid in t.clock.runtime <==> tid in after.runtime) && (tid in t.clock.warned <==> tid in after.warned)
      ensures tid in after.runtime ==> t.clock.runtime[tid] == after.runtime[tid]
    {
      assert c.push.off || CountedTimer(c, active, active, t, tid);
    }
    assert t.clock.runtime.Keys == after.runtime.Keys;
    assert t.clock.runtime == after.runtime;
    assert t.clock.warned == after.warned;
  }

  lemma ActiveTimersExtend(patterns: map<string, seq<string>>, matches: (string, string) -> bool, names: set<string>,
                           name: string)
    ensures ActiveTimers(patterns, matches, names + {name}) == ActiveTimers(patterns, matches, names)
              + set tid | tid in patterns && MatchesAny(matches, name, patterns[tid])
  {
  }

  // ---------------------------------------------------------------------
  // What the history of pushes and ticks says
  // ---------------------------------------------------------------------

  /** The last push, which is the configuration in force. */
  function InForce(ops: seq<Op>): Push {
    if ops == [] then OFF
    else match ops[|ops| - 1] case Pushed(push) => push case Ticked(_) => InForce(ops[..|ops| - 1])
  }

  /** Minutes of the timer that were used from position n on: ticks that found it
      active while its configuration was in force and not off. */
  function Used(ops: seq<Op>, n: nat, tid: string): nat {
    if n >= |ops| then 0
    else
      var init, last := ops[..|ops| - 1], ops[|ops| - 1];
      Used(init, n, tid) + if last.Ticked? && tid in last.active && !InForce(init).off then 1 else 0
  }

  /** Where the current count began: the push that first showed the timer, or
      raised its budget, after which no push dropped or raised it. */
  function Began(ops: seq<Op>, tid: string): (n: nat)
    requires tid in InForce(ops).timers
    ensures n < |ops| && ops[n].Pushed?
  {
    var init, last := ops[..|ops| - 1], ops[|ops| - 1];
    if last.Pushed? && (tid !in InForce(init).timers || last.push.timers[tid] > InForce(init).timers[tid])
    then |ops| - 1
    else Began(init, tid)
  }

  /** What a push at position n leaves of its budget. */
  function LeftOf(ops: seq<Op>, n: nat, tid: string): int
    requires n < |ops| && ops[n].Pushed? && tid in ops[n].push.timers
  {
    Max0(ops[n].push.timers[tid] - Used(ops, n + 1, tid))
  }

  /** A push since the current count began. */
  predicate IsCurrent(ops: seq<Op>, n: nat, tid: string)
    requires tid in InForce(ops).timers
  {
    Began(ops, tid) <= n < |ops| && ops[n].Pushed?
  }

  ghost predicate NonNegative(ops: seq<Op>) {
    forall n | 0 <= n < |ops| && ops[n].Pushed? :: forall tid | tid in ops[n].push.timers ::
        ops[n].push.timers[tid] >= 0
  }

  /** Every push since the count began names the timer. */
  lemma {:induction false} CurrentNames(ops: seq<Op>, n: nat, tid: string)
    requires tid in InForce(ops).timers && IsCurrent(ops, n, tid)
    ensures tid in ops[n].push.timers
  {
    var init, last := ops[..|ops| - 1], ops[|ops| - 1];
    if n < |init| {
      assert tid in InForce(init).timers;
      CurrentNames(init, n, tid);
    }
  }

  lemma {:induction false} RunFollows(ops: seq<Op>)
    ensures Run(ops).push == InForce(ops) && Run(ops).runtime.Keys == InForce(ops).timers.Keys
  {
    if ops == [] {
    } else {
      RunFollows(ops[..|ops| - 1]);
      var c, op := Run(ops[..|ops| - 1]), ops[|ops| - 1];
      if op.Ticked? {
        assert Tick(c, op.active).runtime.Keys == c.runtime.Keys;
      }
    }
  }

  // ---------------------------------------------------------------------
  // The closed form
  // ---------------------------------------------------------------------

  /** v is the least of what the pushes since the count began leave. */
  ghost predicate IsLeast(ops: seq<Op>, tid: string, v: int)
    requires tid in InForce(ops).timers
  {
    && (forall n {:trigger IsCurrent(ops, n, tid)} | IsCurrent(ops, n, tid) ::
          (CurrentNames(ops, n, tid); v <= LeftOf(ops, n, tid)))
    && (exists n {:trigger IsCurrent(ops, n, tid)} ::
          IsCurrent(ops, n, tid) && (CurrentNames(ops, n, tid); v == LeftOf(ops, n, tid)))
  }

  lemma LeftAfterStep(ops: seq<Op>, n: nat, tid: string)
    requires ops != [] && n < |ops| - 1 && ops[n].Pushed? && tid in ops[n].push.timers && ops[n].push.timers[tid] >= 0
    ensures var init, last := ops[..|ops| - 1], ops[|ops| - 1];
            LeftOf(ops, n, tid) ==
            if last.Ticked? && tid in last.active && !InForce(init).off then Max0(LeftOf(init, n, tid) - 1)
                                   else LeftOf(init, n, tid)
  {
  }

  lemma TickKeepsLeast(ops: seq<Op>, tid: string, v: int)
    requires NonNegative(ops) && ops != [] && ops[|ops| - 1].Ticked? && tid in InForce(ops).timers
    requires IsLeast(ops[..|ops| - 1], tid, v)
    ensures IsLeast(ops, tid, if tid in ops[|ops| - 1].active && !InForce(ops).off then Max0(v - 1) else v)
  {
    var init, last := ops[..|ops| - 1], ops[|ops| - 1];
    var v' := if tid in last.active && !InForce(ops).off then Max0(v - 1) else v;
    forall n: nat | IsCurrent(ops, n, tid) ensures tid in ops[n].push.timers && v' <= LeftOf(ops, n, tid) {
      CurrentNames(ops, n, tid);
      assert IsCurrent(init, n, tid);
      LeftAfterStep(ops, n, tid);
    }
    var n :| IsCurrent(init, n, tid) && (CurrentNames(init, n, tid); v == LeftOf(init, n, tid));
    CurrentNames(init, n, tid);
    LeftAfterStep(ops, n, tid);
    assert IsCurrent(ops, n, tid);
  }

  /** A push that starts the count. */
  lemma FreshPushIsLeast(ops: seq<Op>, tid: string)
    requires NonNegative(ops) && tid in InForce(ops).timers && ops[|ops| - 1].Pushed? && Began(ops, tid) == |ops| - 1
    ensures IsLeast(ops, tid, ops[|ops| - 1].push.timers[tid])
  {
    assert IsCurrent(ops, |ops| - 1, tid);
  }

  /** A push of the same or a smaller budget. */
  lemma RepeatKeepsLeast(ops: seq<Op>, tid: string, v: int)
    requires NonNegative(ops) && ops != [] && ops[|ops| - 1].Pushed?
    requires tid in InForce(ops[..|ops| - 1]).timers && tid in ops[|ops| - 1].push.timers
    requires ops[|ops| - 1].push.timers[tid] <= InForce(ops[..|ops| - 1]).timers[tid]
    requires IsLeast(ops[..|ops| - 1], tid, v)
    ensures IsLeast(ops, tid, if v <= ops[|ops| - 1].push.timers[tid] then v else ops[|ops| - 1].push.timers[tid])
  {
    var init, last := ops[..|ops| - 1], ops[|ops| - 1];
    var v' := if v <= last.push.timers[tid] then v else last.push.timers[tid];
    forall n: nat | IsCurrent(ops, n, tid) ensures tid in ops[n].push.timers && v' <= LeftOf(ops, n, tid) {
      CurrentNames(ops, n, tid);
      if n < |init| {
        assert IsCurrent(init, n, tid);
        LeftAfterStep(ops, n, tid);
      }
    }
    var n :| IsCurrent(init, n, tid) && (CurrentNames(init, n, tid); v == LeftOf(init, n, tid));
    CurrentNames(init, n, tid);
    LeftAfterStep(ops, n, tid);
    assert IsCurrent(ops, n, tid) && IsCurrent(ops, |init|, tid);
  }

  /** In one agent session a configured timer's remaining minutes are the least,
      over the pushes since it was first seen or last raised, of the budget less
      the minutes used after that push, and never below zero. */
  lemma {:induction false} ClosedForm(ops: seq<Op>, tid: string)
    requires NonNegative(ops) && tid in InForce(ops).timers
    ensures tid in Run(ops).runtime && IsLeast(ops, tid, Run(ops).runtime[tid])
  {
    var init, last := ops[..|ops| - 1], ops[|ops| - 1];
    RunFollows(ops);
    RunFollows(init);
    assert NonNegative(init);
    if tid in InForce(init).timers {
      ClosedForm(init, tid);
      match last
      case Ticked(_) => TickKeepsLeast(ops, tid, Run(init).runtime[tid]);
      case Pushed(push) =>
        if push.timers[tid] > InForce(init).timers[tid] {
          FreshPushIsLeast(ops, tid);
        } else {
          RepeatKeepsLeast(ops, tid, Run(init).runtime[tid]);
        }
    } else {
      FreshPushIsLeast(ops, tid);
    }
  }

  /** Some current push has nothing left. */
  ghost predicate UsedUp(ops: seq<Op>, tid: string)
    requires tid in InForce(ops).timers
  {
    exists n {:trigger IsCurrent(ops, n, tid)} ::
      IsCurrent(ops, n, tid) && (CurrentNames(ops, n, tid); LeftOf(ops, n, tid) == 0)
  }

  lemma LeastIsZero(ops: seq<Op>, tid: string, v: int)
    requires tid in InForce(ops).timers && IsLeast(ops, tid, v)
    ensures v == 0 <==> UsedUp(ops, tid)
  {
  }

  lemma ZeroWhenUsedUp(ops: seq<Op>, tid: string)
    requires NonNegative(ops) && tid in InForce(ops).timers
    ensures tid in Run(ops).runtime && (Run(ops).runtime[tid] == 0 <==> UsedUp(ops, tid))
  {
    ClosedForm(ops, tid);
    LeastIsZero(ops, tid, Run(ops).runtime[tid]);
  }

  lemma TickAppends(ops: seq<Op>, active: set<string>)
    ensures var all := ops + [Ticked(active)];
            && Run(all) == Tick(Run(ops), active) && InForce(all) == InForce(ops)
            && (NonNegative(ops) ==> NonNegative(all))
  {
    assert (ops + [Ticked(active)])[..|ops|] == ops;
  }

  /** A tick kills a timer's applications exactly when some push since the count
      began has no minutes left after it. */
  lemma ExpiresWhenUsedUp(ops: seq<Op>, active: set<string>, tid: string)
    requires NonNegative(ops) && tid in InForce(ops).timers && tid in active && !InForce(ops).off
    ensures var all := ops + [Ticked(active)];
            InForce(all) == InForce(ops) && (Expires(Run(ops), active, tid) <==> UsedUp(all, tid))
  {
    TickAppends(ops, active);
    RunFollows(ops);
    ZeroWhenUsedUp(ops + [Ticked(active)], tid);
  }

  // ---------------------------------------------------------------------
  // Warnings
  // ---------------------------------------------------------------------

  /** The n-th operation is a tick that warns about the timer. */
  predicate WarnsAt(ops: seq<Op>, n: nat, tid: string) {
    n < |ops| && ops[n].Ticked? && Warns(Run(ops[..n]), ops[n].active, tid)
  }

  /** Every push after position n names the timer. */
  predicate StaysConfigured(ops: seq<Op>, n: nat, tid: string) {
    forall k | n < k < |ops| && ops[k].Pushed? :: tid in ops[k].push.timers
  }

  lemma WarnsAtExtend(ops: seq<Op>, n: nat, tid: string)
    requires ops != []
    ensures var init, last := ops[..|ops| - 1], ops[|ops| - 1];
            && (n < |init| ==> (WarnsAt(ops, n, tid) <==> WarnsAt(init, n, tid)))
            && (WarnsAt(ops, |init|, tid) <==> last.Ticked? && Warns(Run(init), last.active, tid))
            && (n < |init| ==> (StaysConfigured(ops, n, tid) <==>
                                StaysConfigured(init, n, tid) && (last.Pushed? ==> tid in last.push.timers)))
  {
    var init, last := ops[..|ops| - 1], ops[|ops| - 1];
    if n < |init| {
      assert init[..n] == ops[..n];
      assert forall k | 0 <= k < |init| :: init[k] == ops[k];
    }
  }

  /** A tick warned about the timer, which has stayed configured since. */
  ghost predicate WarnedAndKept(ops: seq<Op>, tid: string) {
    exists n :: WarnsAt(ops, n, tid) && StaysConfigured(ops, n, tid)
  }

  lemma WarnedAndKeptExtend(ops: seq<Op>, tid: string)
    requires ops != []
    ensures var init, last := ops[..|ops| - 1], ops[|ops| - 1];
            WarnedAndKept(ops, tid) <==>
              match last
              case Pushed(push) => WarnedAndKept(init, tid) && tid in push.timers
              case Ticked(active) => WarnedAndKept(init, tid) || Warns(Run(init), active, tid)
  {
    var init, last := ops[..|ops| - 1], ops[|ops| - 1];
    if n :| WarnsAt(init, n, tid) && StaysConfigured(init, n, tid) {
      WarnsAtExtend(ops, n, tid);
    }
    if n :| WarnsAt(ops, n, tid) && StaysConfigured(ops, n, tid) {
      WarnsAtExtend(ops, n, tid);
    }
    WarnsAtExtend(ops, |init|, tid);
    assert StaysConfigured(ops, |init|, tid);
  }

  /** The timer counts as warned exactly if a tick warned about it and it has
      stayed configured since: raising the budget does not reset it. */
  lemma {:induction false} WarnedSinceConfigured(ops: seq<Op>, tid: string)
    ensures tid in Run(ops).warned <==> WarnedAndKept(ops, tid)
  {
    if ops == [] {
    } else {
      WarnedSinceConfigured(ops[..|ops| - 1], tid);
      WarnedAndKeptExtend(ops, tid);
    }
  }

  /** A warning is fired at most once while the timer stays configured. */
  lemma WarnsOnce(ops: seq<Op>, i: nat, j: nat, tid: string)
    requires i < j && WarnsAt(ops, i, tid) && WarnsAt(ops, j, tid)
    ensures exists k :: i < k < j && ops[k].Pushed? && tid !in ops[k].push.timers
  {
    var before := ops[..j];
    assert before[..i] == ops[..i];
    assert WarnsAt(before, i, tid);
    WarnedSinceConfigured(before, tid);
    assert !StaysConfigured(before, i, tid);
  }

  /** A tick warns about a timer exactly when it is active and configured, the
      configuration is not off, no warning was given since it was configured, and
      after the tick at least one minute is left but no more than the configured
      warning time, or five minutes if none is configured. */
  lemma WarnsWhenLow(ops: seq<Op>, active: set<string>, tid: string)
    ensures var push, after := InForce(ops), Run(ops + [Ticked(active)]).runtime;
            Warns(Run(ops), active, tid) <==>
              && tid in active && tid in push.timers && !push.off && !WarnedAndKept(ops, tid)
              && tid in after && 1 <= after[tid] <= if tid in push.warnings then push.warnings[tid] else 5
  {
    TickAppends(ops, active);
    RunFollows(ops);
    WarnedSinceConfigured(ops, tid);
  }

  /** A timer is active exactly when a running application's name matches at least
      one of its patterns. */
  lemma ActiveExactly(patterns: map<string, seq<string>>, matches: (string, string) -> bool, names: set<string>,
                      tid: string)
    ensures tid in ActiveTimers(patterns, matches, names) <==>
            tid in patterns && exists name, pattern ::
              name in names && pattern in patterns[tid] && matches(name, pattern)
  {
    if tid in patterns {
      forall name { MatchesSome(matches, name, patterns[tid]); }
    }
  }

  lemma MatchesSome(matches: (string, string) -> bool, name: string, patterns: seq<string>)
    ensures MatchesAny(matches, name, patterns) <==> exists pattern :: pattern in patterns && matches(name, pattern)
  {
    if pattern :| pattern in patterns && matches(name, pattern) {
      var k :| 0 <= k < |patterns| && patterns[k] == pattern;
      assert matches(name, patterns[k]);
    }
  }

  /** The processes a tick kills are the known ones running under a name that matches
      a pattern of a timer it finds used up. */
  lemma KilledExactly(patterns: map<string, seq<string>>, matches: (string, string) -> bool,
                      running: map<string, set<Pid>>, known: map<Pid, string>, expired: set<string>, p: Pid)
    ensures p in KilledFor(patterns, matches, running, known, expired) <==>
            p in known && exists t, name, pattern ::
              t in expired && t in patterns && name in running && p in running[name]
              && pattern in patterns[t] && matches(name, pattern)
  {
    forall t, name | t in patterns { MatchesSome(matches, name, patterns[t]); }
  }

  /** A run in which a timer is warned about, raised, and runs low again without a
      second warning. */
  lemma RaisedIsNotWarnedAgain(tid: string)
    ensures var active := {tid};
            var low, high := Push(false, map[tid := 2], map[]), Push(false, map[tid := 3], map[]);
            var ops := [Pushed(low), Ticked(active), Pushed(high)];
            && WarnsAt(ops, 1, tid)
            && Left(Run(ops), tid) == 3 && 0 < Left(Run(ops), tid) - 1 <= Threshold(Run(ops), tid)
            && Counts(Run(ops), active, tid) && !Warns(Run(ops), active, tid)
  {
    var low, high := Push(false, map[tid := 2], map[]), Push(false, map[tid := 3], map[]);
    var ops := [Pushed(low), Ticked({tid}), Pushed(high)];
    assert ops[..2] == [Pushed(low), Ticked({tid})] && ops[..1] == [Pushed(low)];
    assert ops[..2][..1] == ops[..1] && ops[..1][..0] == [];
    assert Run(ops[..1]) == Merge(NEVER_CONFIGURED, low);
    assert Run(ops[..2]) == Tick(Run(ops[..1]), {tid});
    assert Run(ops) == Merge(Run(ops[..2]), high);
  }

  // ---------------------------------------------------------------------
  // Restart
  // ---------------------------------------------------------------------

  /** `to_persist` saves the countdown as the budgets; loading makes both of it. */
  function Restarted(c: Clock): Clock {
    Clock(c.push.(timers := c.runtime), c.runtime, {})
  }

  /** A restart loses the old budget, so the next push is taken in full, however
      much of it was used. That agrees with what the session would have kept
      exactly when the push is a raise or not above what was left. */
  lemma RestartRefills(c: Clock, push: Push, tid: string)
    requires tid in push.timers && tid in c.runtime && tid in c.push.timers
    ensures Merge(Restarted(c), push).runtime[tid] == push.timers[tid]
    ensures Merge(Restarted(c), push).runtime[tid] == Merge(c, push).runtime[tid] <==>
            push.timers[tid] > c.push.timers[tid] || push.timers[tid] <= c.runtime[tid]
  {
    assert tid in Restarted(c).push.timers;
  }

  /** A session of one push and some ticks, a restart, and the same push again:
      without the restart the used minutes stay used, with it they come back. */
  lemma {:induction false} UsedMinutesComeBack(budget: int, tid: string, ticks: nat)
    requires 0 < ticks <= budget
    ensures var push := Push(false, map[tid := budget], map[]);
            var session := [Pushed(push)] + seq(ticks, _ => Ticked({tid}));
            && tid in Run(session).runtime && Run(session).runtime[tid] == budget - ticks
            && Merge(Run(session), push).runtime[tid] == budget - ticks
            && Merge(Restarted(Run(session)), push).runtime[tid] == budget
  {
    var push := Push(false, map[tid := budget], map[]);
    TicksUseMinutes(push, tid, budget, ticks);
    var session := [Pushed(push)] + seq(ticks, _ => Ticked({tid}));
    RestartRefills(Run(session), push, tid);
  }

  lemma {:induction false} TicksUseMinutes(push: Push, tid: string, budget: int, ticks: nat)
    requires push == Push(false, map[tid := budget], map[]) && ticks <= budget
    ensures var session := [Pushed(push)] + seq(ticks, _ => Ticked({tid}));
            && Run(session).push == push && tid in Run(session).runtime && Run(session).runtime[tid] == budget - ticks
  {
    var session := [Pushed(push)] + seq(ticks, _ => Ticked({tid}));
    if ticks == 0 {
      assert session == [Pushed(push)] && session[..0] == [];
    } else {
      TicksUseMinutes(push, tid, budget, ticks - 1);
      assert session[..|session| - 1] == [Pushed(push)] + seq(ticks - 1, _ => Ticked({tid}));
    }
  }
}
