/**
 The approval gate in front of agent actions (controller/agent_engine.py):
 configured modes, pending actions, decisions, timeout.

 `execute` is two steps: asking for approval, and resuming once the wait ends;
 any calls may come between them. Action ids are random tokens, assumed never to
 repeat. Which node an action goes to, and whether it is unattended, is given.
 */
module ApprovalGate {
  import opened Options

  const AUTO := "auto"
  const NOTIFY := "notify"
  const APPROVE := "approve"
  const TIMEOUT_S: real := 120.0

  const READ_ONLY := {
    "screenshot", "read_screen", "find_elements", "assert_text",
    "assert_element", "wait_for_text", "wait_for_element", "get_cursor_position"
  }

  datatype PendingAction = PendingAction(action: string, node: string, createdAt: real, decided: bool, approved: bool)

  /** What happens to actions; `announced` tells that an action in notify mode is
      announced once it has succeeded. */
  datatype Entry =
    | Requested(id: string, action: string, node: string)
    | Decided(id: string, approved: bool)
    | Started(id: string, action: string, node: string)
    | Refused(id: string, action: string)
    | Immediate(action: string, node: string, announced: bool)

  datatype Gate = Gate(config: map<string, string>, pending: map<string, PendingAction>, log: seq<Entry>)

  const START := Gate(map[], map[], [])

  datatype Op =
    | Configure(items: seq<(string, string)>)
    | Execute(id: string, action: string, node: string, unattended: bool, now: real)
    | Approve(id: string)
    | Reject(id: string)
    | Resume(id: string, now: real)

  predicate IsMode(mode: string) {
    mode == AUTO || mode == NOTIFY || mode == APPROVE
  }

  /** The configuration after the given (action, mode) items. */
  function Configured(config: map<string, string>, items: seq<(string, string)>): map<string, string> {
    if items == [] then config
    else
      var before, last := Configured(config, items[..|items| - 1]), items[|items| - 1];
      if IsMode(last.1) then before[last.0 := last.1] else before
  }

  /** `_get_approval_mode` */
  function ModeOf(config: map<string, string>, action: string, unattended: bool): string {
    if action in config then config[action]
    else if unattended then AUTO
    else if action in READ_ONLY then AUTO else NOTIFY
  }

  function Decide(g: Gate, id: string, approved: bool): Gate {
    if id !in g.pending then g
    else g.(pending := g.pending[id := g.pending[id].(approved := approved, decided := true)], log := g.log
        + [Decided(id, approved)])
  }

  /** The wait is over: the event was set, or the time is up. */
  predicate WaitEnds(p: PendingAction, now: real) {
    p.decided || now - p.createdAt >= TIMEOUT_S
  }

  function Step(g: Gate, op: Op): Gate {
    match op
    case Configure(items) => g.(config := Configured(g.config, items))
    case Execute(id, action, node, unattended, now) =>
      if ModeOf(g.config, action, unattended) == APPROVE then
        g.(pending := g.pending[id := PendingAction(action, node, now, false, false)], log := g.log
            + [Requested(id, action, node)])
      else g.(log := g.log + [Immediate(action, node, ModeOf(g.config, action, unattended) == NOTIFY)])
    case Approve(id) => Decide(g, id, true)
    case Reject(id) => Decide(g, id, false)
    case Resume(id, now) =>
      if id !in g.pending || !WaitEnds(g.pending[id], now) then g
      else
        var p := g.pending[id];
        g.(pending := g.pending - {id}, log := g.log
            + [if p.approved then Started(id, p.action, p.node) else Refused(id, p.action)])
  }

  function Run(ops: seq<Op>): Gate {
    if ops == [] then START else Step(Run(ops[..|ops| - 1]), ops[|ops| - 1])
  }

  // ---------------------------------------------------------------------
  // The engine
  // ---------------------------------------------------------------------

  class AgentEngine {
    var config: map<string, string>
    var pending: map<string, PendingAction>
    ghost var log: seq<Entry>

    ghost function Now(): Gate
      reads this
    {
      Gate(config, pending, log)
    }

    constructor ()
      ensures Now() == START
    {
      config, pending, log := map[], map[], [];
    }

    method SetApprovalConfig(items: seq<(string, string)>)
      modifies this
      ensures Now() == Step(old(Now()), Configure(items))
    {
      for n := 0 to |items|
        invariant config == Configured(old(config), items[..n]) && pending == old(pending) && log == old(log)
      {
        assert items[..n + 1][..n] == items[..n];
        if IsMode(items[n].1) {
          config := config[items[n].0 := items[n].1];
        }
      }
      assert items[..|items|] == items;
    }

    /** The first half of `execute`; whether the action runs at once. */
    method BeginExecute(id: string, action: string, node: string, unattended: bool, now: real) returns (runsNow: bool)
      modifies this
      ensures Now() == Step(old(Now()), Execute(id, action, node, unattended, now))
      ensures runsNow <==> ModeOf(config, action, unattended) != APPROVE
    {
      var mode := ModeOf(config, action, unattended);
      runsNow := mode != APPROVE;
      if runsNow {
        log := log + [Immediate(action, node, mode == NOTIFY)];
      } else {
        pending := pending[id := PendingAction(action, node, now, false, false)];
        log := log + [Requested(id, action, node)];
      }
    }

    method ApproveAction(id: string) returns (known: bool)
      modifies this
      ensures Now() == Step(old(Now()), Approve(id))
      ensures known <==> id in old(pending)
    {
      if id !in pending {
        return false;
      }
      pending := pending[id := pending[id].(approved := true)];
      pending := pending[id := pending[id].(decided := true)];
      log := log + [Decided(id, true)];
      known := true;
    }

    method RejectAction(id: string) returns (known: bool)
      modifies this
      ensures Now() == Step(old(Now()), Reject(id))
      ensures known <==> id in old(pending)
    {
      if id !in pending {
        return false;
      }
      pending := pending[id := pending[id].(approved := false)];
      pending := pending[id := pending[id].(decided := true)];
      log := log + [Decided(id, false)];
      known := true;
    }

    /** The second half of `execute`, once the wait has ended. */
    method ResumeExecute(id: string, now: real) returns (runs: bool)
      requires id in pending && WaitEnds(pending[id], now)
      modifies this
      ensures Now() == Step(old(Now()), Resume(id, now))
      ensures runs <==> old(pending)[id].approved
    {
      var p := pending[id];
      pending := pending - {id};
      runs := p.approved;
      if p.approved {
        log := log + [Started(id, p.action, p.node)];
      } else {
        log := log + [Refused(id, p.action)];
      }
    }
  }

  // ---------------------------------------------------------------------
  // The gate as seen from the log
  // ---------------------------------------------------------------------

  /** One action's story: not asked for, waiting with its last decision, closed. */
  datatype Story = Unknown | Waiting(action: string, node: string, last: Option<bool>) | Closed | Broken

  predicate About(e: Entry, id: string) {
    !e.Immediate? && e.id == id
  }

  function Tell(story: Story, e: Entry): Story {
    match (story, e)
    case (Unknown, Requested(_, action, node)) => Waiting(action, node, None)
    case (Waiting(action, node, _), Decided(_, approved)) => Waiting(action, node, Some(approved))
    case (Waiting(action, node, last), Started(_, a, n)) => if last == Some(true) && a == action
         && n == node then Closed else Broken
    case (Waiting(action, node, last), Refused(_, a)) => if last != Some(true) && a == action then Closed else Broken
    case (_, _) => Broken
  }

  function StoryOf(log: seq<Entry>, id: string): Story {
    if log == [] then Unknown
    else
      var before := StoryOf(log[..|log| - 1], id);
      if About(log[|log| - 1], id) then Tell(before, log[|log| - 1]) else before
  }

  lemma StoryOne(log: seq<Entry>, e: Entry, id: string)
    ensures StoryOf(log + [e], id) == if About(e, id) then Tell(StoryOf(log, id), e) else StoryOf(log, id)
  {
    assert (log + [e])[..|log|] == log;
  }

  predicate StoryFits(g: Gate, id: string) {
    var story := StoryOf(g.log, id);
    if id in g.pending then
      var p := g.pending[id];
      story == Waiting(p.action, p.node, if p.decided then Some(p.approved) else None) && (!p.decided ==> !p.approved)
    else story == Unknown || story == Closed
  }

  ghost predicate Fits(g: Gate) {
    forall id :: StoryFits(g, id)
  }

  /** A token that was never used. */
  predicate Fresh(g: Gate, op: Op) {
    op.Execute? ==> StoryOf(g.log, op.id) == Unknown && op.id !in g.pending
  }

  predicate FreshRun(ops: seq<Op>) {
    ops != [] ==> FreshRun(ops[..|ops| - 1]) && Fresh(Run(ops[..|ops| - 1]), ops[|ops| - 1])
  }

  /** One entry about one action, and that action's pending record. */
  lemma EntryFits(g: Gate, g': Gate, e: Entry, id: string)
    requires Fits(g) && g'.log == g.log + [e] && About(e, id)
    requires forall k | k != id ::
               (k in g'.pending <==> k in g.pending) && (k in g.pending ==> g'.pending[k] == g.pending[k])
    requires StoryFits(g', id)
    ensures Fits(g')
  {
    forall k ensures StoryFits(g', k) {
      assert StoryFits(g, k);
      StoryOne(g.log, e, k);
    }
  }

  lemma DecideFits(g: Gate, id: string, approved: bool)
    requires Fits(g)
    ensures Fits(Decide(g, id, approved))
  {
    if id in g.pending {
      assert StoryFits(g, id);
      StoryOne(g.log, Decided(id, approved), id);
      EntryFits(g, Decide(g, id, approved), Decided(id, approved), id);
    }
  }

  lemma ExecuteFits(g: Gate, op: Op)
    requires Fits(g) && op.Execute? && Fresh(g, op)
    ensures Fits(Step(g, op))
  {
    var g' := Step(g, op);
    if ModeOf(g.config, op.action, op.unattended) == APPROVE {
      var e := Requested(op.id, op.action, op.node);
      StoryOne(g.log, e, op.id);
      EntryFits(g, g', e, op.id);
    } else {
      forall k ensures StoryFits(g', k) {
        assert StoryFits(g, k);
        StoryOne(g.log, g'.log[|g.log|], k);
      }
    }
  }

  lemma ResumeFits(g: Gate, id: string, now: real)
    requires Fits(g)
    ensures Fits(Step(g, Resume(id, now)))
  {
    if id in g.pending && WaitEnds(g.pending[id], now) {
      var p := g.pending[id];
      var e := if p.approved then Started(id, p.action, p.node) else Refused(id, p.action);
      assert StoryFits(g, id);
      StoryOne(g.log, e, id);
      EntryFits(g, Step(g, Resume(id, now)), e, id);
    }
  }

  lemma StepFits(g: Gate, op: Op)
    requires Fits(g) && Fresh(g, op)
    ensures Fits(Step(g, op))
  {
    match op
    case Configure(items) =>
      forall k ensures StoryFits(Step(g, op), k) { assert StoryFits(g, k); }
    case Execute(_, _, _, _, _) => ExecuteFits(g, op);
    case Approve(id) => DecideFits(g, id, true);
    case Reject(id) => DecideFits(g, id, false);
    case Resume(id, now) => ResumeFits(g, id, now);
  }

  /** Over every run each gated action is asked for, decided any number of times,
      and closed once, in keeping with the last decision; it is pending exactly
      until it is closed. */
  lemma {:induction false} GateHolds(ops: seq<Op>)
    requires FreshRun(ops)
    ensures Fits(Run(ops))
  {
    if ops == [] {
    } else {
      GateHolds(ops[..|ops| - 1]);
      StepFits(Run(ops[..|ops| - 1]), ops[|ops| - 1]);
    }
  }

  lemma {:induction false} BrokenStays(log: seq<Entry>, id: string, n: nat)
    requires n <= |log| && StoryOf(log, id) != Broken
    ensures StoryOf(log[..n], id) != Broken
  {
    if n < |log| {
      BrokenStays(log[..|log| - 1], id, n);
      assert log[..|log| - 1][..n] == log[..n];
    } else {
      assert log[..n] == log;
    }
  }

  /** Where a waiting action was asked for, and its last decision. */
  lemma {:induction false} WaitingSince(log: seq<Entry>, id: string) returns (r: nat, d: nat)
    requires StoryOf(log, id).Waiting?
    ensures var story := StoryOf(log, id);
            && r < |log| && log[r] == Requested(id, story.action, story.node)
            && match story.last
               case None => forall i | r < i < |log| :: !About(log[i], id)
               case Some(approved) =>
                 r < d < |log| && log[d] == Decided(id, approved) && forall i | d < i < |log| :: !About(log[i], id)
  {
    var init, e := log[..|log| - 1], log[|log| - 1];
    assert log == init + [e];
    StoryOne(init, e, id);
    if !About(e, id) {
      r, d := WaitingSince(init, id);
    } else if e.Requested? {
      r, d := |init|, 0;
    } else {
      r, d := WaitingSince(init, id);
      d := |init|;
    }
  }

  lemma StoryStep(log: seq<Entry>, n: nat, id: string)
    requires n < |log| && About(log[n], id) && StoryOf(log, id) != Broken
    ensures StoryOf(log[..n], id) != Broken
    ensures StoryOf(log[..n + 1], id) == Tell(StoryOf(log[..n], id), log[n]) != Broken
  {
    BrokenStays(log, id, n);
    BrokenStays(log, id, n + 1);
    assert log[..n + 1] == log[..n] + [log[n]];
    StoryOne(log[..n], log[n], id);
  }

  lemma NeverBroken(ops: seq<Op>, id: string)
    requires FreshRun(ops)
    ensures StoryOf(Run(ops).log, id) != Broken
  {
    GateHolds(ops);
    assert StoryFits(Run(ops), id);
  }

  lemma StoryAt(ops: seq<Op>, n: nat, id: string)
    requires FreshRun(ops) && n < |Run(ops).log| && About(Run(ops).log[n], id)
    ensures var log := Run(ops).log;
            StoryOf(log[..n], id) != Broken
            && StoryOf(log[..n + 1], id) == Tell(StoryOf(log[..n], id), log[n]) != Broken
  {
    NeverBroken(ops, id);
    StoryStep(Run(ops).log, n, id);
  }

  /** A gated action starts only if it was asked for, for that node, and the last
      decision before its wait ended was an approval. */
  lemma StartsOnlyIfApproved(ops: seq<Op>, n: nat) returns (r: nat, d: nat)
    requires FreshRun(ops) && n < |Run(ops).log| && Run(ops).log[n].Started?
    ensures var log := Run(ops).log;
            var id := log[n].id;
            && r < d < n && log[r] == Requested(id, log[n].action, log[n].node)
            && log[d] == Decided(id, true) && forall i | d < i < n :: !About(log[i], id)
  {
    var log := Run(ops).log;
    StoryAt(ops, n, log[n].id);
    r, d := WaitingSince(log[..n], log[n].id);
  }

  /** It is refused only if the last decision was a rejection or there was none. */
  lemma RefusedOnlyIfNotApproved(ops: seq<Op>, n: nat) returns (r: nat, d: nat)
    requires FreshRun(ops) && n < |Run(ops).log| && Run(ops).log[n].Refused?
    ensures var log := Run(ops).log;
            var id := log[n].id;
            && r < n && log[r].Requested? && log[r].id == id
            && ((r < d < n && log[d] == Decided(id, false) && forall i | d < i < n :: !About(log[i], id))
                || forall i | r < i < n :: !About(log[i], id))
  {
    var log := Run(ops).log;
    StoryAt(ops, n, log[n].id);
    r, d := WaitingSince(log[..n], log[n].id);
    assert forall i | 0 <= i < n :: log[..n][i] == log[i];
  }

  lemma {:induction false} ClosedForGood(log: seq<Entry>, id: string, n: nat)
    requires n < |log| && About(log[n], id) && (log[n].Started? || log[n].Refused?) && StoryOf(log, id) != Broken
    ensures StoryOf(log, id) == Closed && forall i | n < i < |log| :: !About(log[i], id)
  {
    var init, e := log[..|log| - 1], log[|log| - 1];
    assert log == init + [e];
    StoryOne(init, e, id);
    BrokenStays(log, id, |init|);
    if n < |init| {
      ClosedForGood(init, id, n);
    }
  }

  /** Once started or refused, nothing more happens under that id: a late decision
      has no effect, and no action starts twice. */
  lemma NothingAfterClosing(ops: seq<Op>, n: nat, m: nat)
    requires FreshRun(ops) && n < m < |Run(ops).log| && (Run(ops).log[n].Started? || Run(ops).log[n].Refused?)
    ensures !About(Run(ops).log[m], Run(ops).log[n].id)
  {
    GateHolds(ops);
    assert StoryFits(Run(ops), Run(ops).log[n].id);
    ClosedForGood(Run(ops).log, Run(ops).log[n].id, n);
  }

  // ---------------------------------------------------------------------
  // Which actions are gated
  // ---------------------------------------------------------------------

  /** The last valid mode among the items, if one is for this action. */
  function LastIn(items: seq<(string, string)>, action: string): Option<string> {
    if items == [] then None
    else
      var last := items[|items| - 1];
      if last.0 == action && last.1 in {"auto", "notify", "approve"} then Some(last.1)
      else LastIn(items[..|items| - 1], action)
  }

  /** The last valid mode that was set for an action. */
  function LastMode(ops: seq<Op>, action: string): Option<string> {
    if ops == [] then None
    else
      var last := ops[|ops| - 1];
      if last.Configure? && LastIn(last.items, action).Some? then LastIn(last.items, action)
      else LastMode(ops[..|ops| - 1], action)
  }

  function Lookup(config: map<string, string>, action: string): Option<string> {
    if action in config then Some(config[action]) else None
  }

  lemma {:induction false} ConfiguredIsLast(config: map<string, string>, items: seq<(string, string)>, action: string)
    ensures Lookup(Configured(config, items), action) ==
            if LastIn(items, action).Some? then LastIn(items, action) else Lookup(config, action)
  {
    if items == [] {
    } else {
      ConfiguredIsLast(config, items[..|items| - 1], action);
    }
  }

  lemma {:induction false} ConfigIsLastMode(ops: seq<Op>, action: string)
    ensures LastMode(ops, action) == Lookup(Run(ops).config, action)
  {
    if ops == [] {
    } else {
      var init, last := ops[..|ops| - 1], ops[|ops| - 1];
      ConfigIsLastMode(init, action);
      if last.Configure? {
        ConfiguredIsLast(Run(init).config, last.items, action);
      }
    }
  }

  /** An action waits for approval exactly when approval was the last valid mode
      set for it, on every kind of node; otherwise it runs at once, and is announced
      when notification was, or when no mode was set and it changes something on an
      attended node. */
  lemma GatedExactly(ops: seq<Op>, id: string, action: string, node: string, unattended: bool, now: real)
    ensures var after := Run(ops + [Execute(id, action, node, unattended, now)]);
            var announced := LastMode(ops, action) == Some("notify")
                             || (LastMode(ops, action) == None && !unattended && action !in READ_ONLY);
            after.log == Run(ops).log +
              [if LastMode(ops, action) == Some("approve") then Requested(id, action, node)
               else Immediate(action, node, announced)]
  {
    var op := Execute(id, action, node, unattended, now);
    assert (ops + [op])[..|ops|] == ops;
    ConfigIsLastMode(ops, action);
    LastModeIsValid(ops, action);
  }

  lemma {:induction false} LastModeIsValid(ops: seq<Op>, action: string)
    ensures LastMode(ops, action).Some? ==> LastMode(ops, action).value in {"auto", "notify", "approve"}
  {
    if ops != [] {
      LastModeIsValid(ops[..|ops| - 1], action);
      if ops[|ops| - 1].Configure? { LastInIsValid(ops[|ops| - 1].items, action); }
    }
  }

  lemma {:induction false} LastInIsValid(items: seq<(string, string)>, action: string)
    ensures LastIn(items, action).Some? ==> LastIn(items, action).value in {"auto", "notify", "approve"}
  {
    if items != [] { LastInIsValid(items[..|items| - 1], action); }
  }

  // ---------------------------------------------------------------------
  // The gate as seen from the calls
  // ---------------------------------------------------------------------

  /** The last call that asked for this action. */
  function Asked(ops: seq<Op>, id: string): Option<Op> {
    if ops == [] then None
    else
      var last := ops[|ops| - 1];
      if last.Execute? && last.id == id then Some(last) else Asked(ops[..|ops| - 1], id)
  }

  /** The last call since then that approved or rejected it. */
  function LastCall(ops: seq<Op>, id: string): Option<bool> {
    if ops == [] then None
    else
      match ops[|ops| - 1]
      case Approve(i) => if i == id then Some(true) else LastCall(ops[..|ops| - 1], id)
      case Reject(i) => if i == id then Some(false) else LastCall(ops[..|ops| - 1], id)
      case Execute(i, _, _, _, _) => if i == id then None else LastCall(ops[..|ops| - 1], id)
      case _ => LastCall(ops[..|ops| - 1], id)
  }

  lemma {:induction false} PendingIsAsked(ops: seq<Op>, id: string)
    requires FreshRun(ops) && id in Run(ops).pending
    ensures Asked(ops, id).Some? && Asked(ops, id).value.Execute?
    ensures var asked := Asked(ops, id).value;
            Run(ops).pending[id] == PendingAction(asked.action, asked.node, asked.now, LastCall(ops, id).Some?,
                                                  LastCall(ops, id) == Some(true))
  {
    var init, last := ops[..|ops| - 1], ops[|ops| - 1];
    if !(last.Execute? && last.id == id) {
      PendingIsAsked(init, id);
    }
  }

  /** Whatever else is called in between, a pending action resumes as the last
      approval or rejection since it was asked for says: it starts, on the node it
      was asked for, exactly when that was an approval, and is refused otherwise;
      without either it goes on waiting for 120 seconds and is then refused. */
  lemma ResumesAsCalled(ops: seq<Op>, id: string, now: real)
    requires FreshRun(ops) && id in Run(ops).pending
    ensures Asked(ops, id).Some? && Asked(ops, id).value.Execute?
    ensures var asked, call, after := Asked(ops, id).value, LastCall(ops, id), Run(ops + [Resume(id, now)]);
            && (call == None && now - asked.now < 120.0 ==> after == Run(ops))
            && (call == Some(true) ==> after.log == Run(ops).log + [Started(id, asked.action, asked.node)])
            && (call == Some(false) || (call == None && now - asked.now >= 120.0)
                ==> after.log == Run(ops).log + [Refused(id, asked.action)])
            && (id in after.pending <==> call == None && now - asked.now < 120.0)
  {
    PendingIsAsked(ops, id);
    assert (ops + [Resume(id, now)])[..|ops|] == ops;
  }

  /** An undecided action resumes only when its time is up, and is then refused. */
  lemma UndecidedWaits(g: Gate, id: string, now: real)
    requires Fits(g) && id in g.pending && !g.pending[id].decided
    ensures now - g.pending[id].createdAt < 120.0 ==> Step(g, Resume(id, now)) == g
    ensures now - g.pending[id].createdAt >= 120.0 ==>
              Step(g, Resume(id, now)).log == g.log + [Refused(id, g.pending[id].action)]
  {
    assert StoryFits(g, id);
  }
}
