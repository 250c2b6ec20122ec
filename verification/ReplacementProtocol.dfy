/**
 What the orchestrator's log must look like, and that every run's does: the
 protocol of one pool as an automaton over the log, and its consequences for
 every replace command.
 */
module ReplacementProtocol {
  import opened Options
  import opened Orchestrator

  /** What a healthy outside delivers: scanned paths have names, and a new
      multipath device has a name of its own. */
  predicate Plausible(op: Op) {
    op.Scanned? ==>
      && (forall d | d in op.scan.drives :: "" !in Paths(d))
      && (op.scan.multipath.Some? ==>
            op.scan.multipath.value != "" && forall d | d in op.scan.drives :: op.scan.multipath.value !in Paths(d))
  }

  predicate AllPlausible(ops: seq<Op>) {
    forall n | 0 <= n < |ops| :: Plausible(ops[n])
  }

  // ---------------------------------------------------------------------
  // The protocol
  // ---------------------------------------------------------------------

  datatype Phase =
    | Idle
    | Watching(part: Part)
    | Taken(part: Part, serial: string, paths: seq<string>)
    | Joined(part: Part, serial: string, paths: seq<string>, device: string)
    | Ready(part: Part, serial: string, paths: seq<string>, path: string)
    | Cleared(part: Part, serial: string, paths: seq<string>, path: string)
    | Issued(part: Part, ok: bool)
    | Broken

  /** The entry is about this pool. */
  predicate Concerns(e: Entry, pool: string) {
    !e.Led? && e.pool == pool
  }

  /** The path a replacement on these paths may use. */
  predicate Permitted(path: string, paths: seq<string>, phase: Phase) {
    if |paths| >= 2 then phase.Joined? && path == phase.device else phase.Taken? && paths == [path]
  }

  function Advance(auto: bool, phase: Phase, e: Entry): Phase {
    match (phase, e)
    case (Idle, Opened(_, _, part)) => Watching(part)
    case (Watching(part), Accepted(_, serial, paths)) =>
      if serial != part.serial then Taken(part, serial, paths) else Broken
    case (Taken(part, serial, paths), MultipathFailed(_)) => Watching(part)
    case (Taken(part, serial, paths), Built(_, device)) => Joined(part, serial, paths, device)
    case (Taken(part, serial, paths), CapacityMismatch(_, path, size)) => Mismatch(phase, path, size)
    case (Joined(part, serial, paths, device), CapacityMismatch(_, path, size)) => Mismatch(phase, path, size)
    case (Taken(part, serial, paths), Validated(_, path, size)) => Pass(phase, path, size)
    case (Joined(part, serial, paths, device), Validated(_, path, size)) => Pass(phase, path, size)
    case (Ready(part, serial, paths, path), Approved(_)) => if auto then Broken else Cleared(part, serial, paths, path)
    case (Ready(part, serial, paths, path), Replaced(pool, tool, failed, with, ok)) =>
      if auto && with == path && failed == part.device && tool == ToolFor(pool) then Issued(part, ok) else Broken
    case (Cleared(part, serial, paths, path), Replaced(pool, tool, failed, with, ok)) =>
      if with == path && failed == part.device && tool == ToolFor(pool) then Issued(part, ok) else Broken
    case (Issued(part, ok), Completed(_)) => if ok then Idle else Broken
    case (_, _) => Broken
  }

  function Mismatch(phase: Phase, path: string, size: nat): Phase
    requires phase.Taken? || phase.Joined?
  {
    if TooSmall(phase.part.capacity, size) then Watching(phase.part) else Broken
  }

  function Pass(phase: Phase, path: string, size: nat): Phase
    requires phase.Taken? || phase.Joined?
  {
    if Permitted(path, phase.paths, phase) && !TooSmall(phase.part.capacity, size) then
      Ready(phase.part, phase.serial, phase.paths, path)
    else Broken
  }

  /** The phase the log puts a pool in. */
  function Judge(auto: bool, log: seq<Entry>, pool: string): Phase {
    if log == [] then Idle
    else
      var before := Judge(auto, log[..|log| - 1], pool);
      if Concerns(log[|log| - 1], pool) then Advance(auto, before, log[|log| - 1]) else before
  }

  lemma JudgeOne(auto: bool, log: seq<Entry>, e: Entry, pool: string)
    ensures Judge(auto, log + [e], pool) ==
            if Concerns(e, pool) then Advance(auto, Judge(auto, log, pool), e) else Judge(auto, log, pool)
  {
    assert (log + [e])[..|log|] == log;
  }

  lemma {:induction false} JudgeOthers(auto: bool, log: seq<Entry>, more: seq<Entry>, pool: string)
    requires forall e | e in more :: !Concerns(e, pool)
    ensures Judge(auto, log + more, pool) == Judge(auto, log, pool)
  {
    if more == [] {
      assert log + more == log;
    } else {
      var init, last := more[..|more| - 1], more[|more| - 1];
      assert log + more == log + init + [last];
      JudgeOthers(auto, log, init, pool);
      JudgeOne(auto, log + init, last, pool);
      assert last in more;
    }
  }

  lemma JudgePrepend(auto: bool, log: seq<Entry>, e: Entry, more: seq<Entry>, pool: string)
    ensures Judge(auto, log + ([e] + more), pool) == Judge(auto, (log + [e]) + more, pool)
  {
    assert log + ([e] + more) == (log + [e]) + more;
  }

  // ---------------------------------------------------------------------
  // The stored workflow fits the phase
  // ---------------------------------------------------------------------

  predicate About(wf: Workflow, pool: string, part: Part) {
    && wf.pool == pool && wf.failedDevice == part.device && wf.failedSerial == part.serial
    && wf.failedCapacity == part.capacity && wf.slotIndex == IndexOf(SlotOf(part))
  }

  /** At the boundary of a step a stored workflow is waiting for a drive, held for
      approval, resilvering, or given up after a failed replace. */
  predicate WorkflowFits(auto: bool, wf: Workflow, pool: string, phase: Phase) {
    match wf.state
    case WaitingNewDrive => phase.Watching? && About(wf, pool, phase.part)
    case Validating =>
      !auto && phase.Ready? && About(wf, pool, phase.part) && wf.replacementPath == phase.path
          && wf.newSerial == phase.serial
    case Resilvering => phase.Issued? && phase.ok && About(wf, pool, phase.part)
    case Degraded => phase.Issued? && !phase.ok && About(wf, pool, phase.part)
    case _ => false
  }

  predicate PoolFits(s: System, pool: string) {
    var phase := Judge(s.auto, s.log, pool);
    if pool in s.active then WorkflowFits(s.auto, s.active[pool], pool, phase) else phase == Idle
  }

  ghost predicate Fits(s: System) {
    forall pool :: PoolFits(s, pool)
  }

  /** A handler's outcome, when it starts with the log in a given state. */
  predicate OutcomeFits(auto: bool, log: seq<Entry>, pool: string, out: Outcome) {
    && out.wf.pool == pool
    && (forall e | e in out.entries :: Concerns(e, pool))
    && WorkflowFits(auto, out.wf, pool, Judge(auto, log + out.entries, pool))
  }

  lemma ReplaceFits(auto: bool, log: seq<Entry>, pool: string, wf: Workflow, ok: bool)
    requires var phase := Judge(auto, log, pool);
             && (if auto then phase.Ready? else phase.Cleared?)
             && About(wf, pool, phase.part) && wf.replacementPath == phase.path
    ensures OutcomeFits(auto, log, pool, Replace(wf, ok))
  {
    var out := Replace(wf, ok);
    JudgeOne(auto, log, out.entries[0], pool);
  }

  lemma PassIsReady(auto: bool, log: seq<Entry>, pool: string, path: string, size: nat)
    requires var phase := Judge(auto, log, pool);
             (phase.Taken? || phase.Joined?) && Permitted(path, phase.paths, phase)
                 && !TooSmall(phase.part.capacity, size)
    ensures var phase := Judge(auto, log, pool);
            Judge(auto, log + [Validated(pool, path, size)], pool) == Ready(phase.part, phase.serial, phase.paths, path)
  {
    JudgeOne(auto, log, Validated(pool, path, size), pool);
  }

  lemma HeldFits(auto: bool, log: seq<Entry>, pool: string, held: Workflow, size: nat, ok: bool)
    requires var phase := Judge(auto, log + [Validated(pool, held.replacementPath, size)], pool);
             && phase.Ready? && About(held, pool, phase.part) && held.newSerial == phase.serial
             && held.replacementPath == phase.path && held.state == Validating
    ensures var done := if auto then Replace(held, ok) else Outcome(held, []);
            OutcomeFits(auto, log, pool, Outcome(done.wf, [Validated(pool, held.replacementPath, size)] + done.entries))
  {
    var e := Validated(pool, held.replacementPath, size);
    if auto {
      ReplaceFits(auto, log + [e], pool, held, ok);
      JudgePrepend(auto, log, e, Replace(held, ok).entries, pool);
    } else {
      assert [e] + [] == [e];
    }
  }

  lemma ValidateFits(auto: bool, log: seq<Entry>, pool: string, wf: Workflow, path: string, scan: Scan)
    requires var phase := Judge(auto, log, pool);
             && (phase.Taken? || phase.Joined?) && Permitted(path, phase.paths, phase)
             && About(wf, pool, phase.part) && wf.newSerial == phase.serial
    ensures OutcomeFits(auto, log, pool, Validate(auto, wf, path, scan))
  {
    var size := Size(scan, path);
    if TooSmall(wf.failedCapacity, size) {
      JudgeOne(auto, log, CapacityMismatch(pool, path, size), pool);
    } else {
      PassIsReady(auto, log, pool, path, size);
      HeldFits(auto, log, pool, wf.(state := Validating, replacementPath := path), size, scan.replaceOk);
    }
  }

  lemma BuildFits(auto: bool, log: seq<Entry>, pool: string, wf: Workflow, scan: Scan)
    requires var phase := Judge(auto, log, pool);
             phase.Taken? && |phase.paths| >= 2 && About(wf, pool, phase.part) && wf.newSerial == phase.serial
    ensures OutcomeFits(auto, log, pool, BuildMultipath(auto, wf, scan))
  {
    match scan.multipath
    case None => JudgeOne(auto, log, MultipathFailed(pool), pool);
    case Some(device) =>
      var e := Built(pool, device);
      var joined := wf.(multipathDevice := device);
      JudgeOne(auto, log, e, pool);
      ValidateFits(auto, log + [e], pool, joined, device, scan);
      JudgePrepend(auto, log, e, Validate(auto, joined, device, scan).entries, pool);
  }

  lemma AcceptFits(auto: bool, log: seq<Entry>, pool: string, wf: Workflow, d: Drive, scan: Scan)
    requires var phase := Judge(auto, log, pool);
             phase.Watching? && About(wf, pool, phase.part) && d.serial != wf.failedSerial
    ensures OutcomeFits(auto, log, pool, Accept(auto, wf, d, scan))
  {
    var e := Accepted(pool, d.serial, Paths(d));
    var taken := wf.(newDevice := d.first, newSerial := d.serial);
    JudgeOne(auto, log, e, pool);
    if |Paths(d)| >= 2 {
      BuildFits(auto, log + [e], pool, taken, scan);
      JudgePrepend(auto, log, e, BuildMultipath(auto, taken, scan).entries, pool);
    } else {
      ValidateFits(auto, log + [e], pool, taken, d.first, scan);
      JudgePrepend(auto, log, e, Validate(auto, taken, d.first, scan).entries, pool);
    }
  }

  lemma PutFits(s: System, pool: string, out: Outcome)
    requires Fits(s) && OutcomeFits(s.auto, s.log, pool, out)
    ensures Fits(Put(s, out))
  {
    forall other ensures PoolFits(Put(s, out), other) {
      assert PoolFits(s, other);
      if other != pool {
        JudgeOthers(s.auto, s.log, out.entries, other);
      }
    }
  }

  lemma CheckFits(s: System, key: string, scan: Scan)
    requires Fits(s)
    ensures Fits(Check(s, key, scan))
  {
    if key in s.active && s.active[key].state == WaitingNewDrive {
      var wf := s.active[key];
      assert PoolFits(s, key);
      var i := FirstCandidate(s.active, wf, scan.existing, scan.drives);
      if i < |scan.drives| {
        AcceptFits(s.auto, s.log, key, wf, scan.drives[i], scan);
        PutFits(s, key, Accept(s.auto, wf, scan.drives[i], scan));
      }
    }
  }

  lemma ApproveFits(s: System, key: string, ok: bool)
    requires Fits(s)
    ensures Fits(Approve(s, key, ok))
  {
    if key in s.active && s.active[key].state == Validating {
      assert PoolFits(s, key);
      var e := Approved(key);
      var done := Replace(s.active[key], ok);
      JudgeOne(s.auto, s.log, e, key);
      ReplaceFits(s.auto, s.log + [e], key, s.active[key], ok);
      JudgePrepend(s.auto, s.log, e, done.entries, key);
      PutFits(s, key, Outcome(done.wf, [e] + done.entries));
    }
  }

  lemma {:induction false} DarkenIsLeds(enclosures: seq<string>, index: int)
    ensures forall e | e in Darken(enclosures, index) :: e.Led? && !e.on
  {
    if index >= 0 && enclosures != [] {
      DarkenIsLeds(enclosures[..|enclosures| - 1], index);
    }
  }

  lemma OpenFits(s: System, name: string, kind: Kind, part: Part)
    requires Fits(s) && name !in s.active
    ensures Fits(Open(s, name, kind, part))
  {
    forall pool ensures PoolFits(Open(s, name, kind, part), pool) {
      assert PoolFits(s, pool);
      JudgeOthers(s.auto, s.log, MarkEntries(part), pool);
      JudgeOne(s.auto, s.log + MarkEntries(part), Opened(name, kind, part), pool);
    }
  }

  lemma FinishFits(s: System, key: string)
    requires Fits(s) && key in s.active && s.active[key].state == Resilvering
    ensures Fits(Finish(s, s.active[key]))
  {
    var wf := s.active[key];
    var dark := Darken(s.enclosures, wf.slotIndex);
    DarkenIsLeds(s.enclosures, wf.slotIndex);
    assert PoolFits(s, key);
    forall pool ensures PoolFits(Finish(s, wf), pool) {
      assert PoolFits(s, pool);
      JudgeOthers(s.auto, s.log, dark, pool);
      JudgeOne(s.auto, s.log + dark, Completed(wf.pool), pool);
    }
  }

  lemma ObserveFits(s: System, o: Observation)
    requires Fits(s)
    ensures Fits(Observe(s, o))
  {
    if IsDegraded(o) {
      var i := FirstFailed(o.kind, o.parts);
      if o.name !in s.active && i < |o.parts| {
        OpenFits(s, o.name, o.kind, o.parts[i]);
      }
    } else if Observe(s, o) != s {
      FinishFits(s, o.name);
    }
  }

  lemma StepFits(s: System, op: Op)
    requires Fits(s)
    ensures Fits(Step(s, op))
  {
    match op
    case Seen(o) => ObserveFits(s, o);
    case Scanned(key, scan) => CheckFits(s, key, scan);
    case ApprovedBy(key, ok) => ApproveFits(s, key, ok);
  }

  /** Over every run each pool's log follows the protocol, each key holds its own
      pool's workflow, and that workflow is in the state the protocol is in. */
  lemma {:induction false} ProtocolFollowed(auto: bool, enclosures: seq<string>, ops: seq<Op>)
    ensures Fits(Run(Start(auto, enclosures), ops))
  {
    if ops == [] {
    } else {
      ProtocolFollowed(auto, enclosures, ops[..|ops| - 1]);
      StepFits(Run(Start(auto, enclosures), ops[..|ops| - 1]), ops[|ops| - 1]);
    }
  }

  // ---------------------------------------------------------------------
  // What the protocol means for a replace command
  // ---------------------------------------------------------------------

  lemma {:induction false} BrokenStays(auto: bool, log: seq<Entry>, pool: string, n: nat)
    requires n <= |log| && Judge(auto, log, pool) != Broken
    ensures Judge(auto, log[..n], pool) != Broken
  {
    if n < |log| {
      BrokenStays(auto, log[..|log| - 1], pool, n);
      assert log[..|log| - 1][..n] == log[..n];
    } else {
      assert log[..n] == log;
    }
  }

  /** The pool's current workflow was opened at o, and no replace was issued since. */
  predicate OpenedAt(log: seq<Entry>, pool: string, o: nat, part: Part) {
    && o < |log| && log[o].Opened? && log[o].pool == pool && log[o].part == part
    && forall i | o < i < |log| :: Concerns(log[i], pool) ==> !log[i].Opened? && !log[i].Replaced? && !log[i].Completed?
  }

  /** The drive the pool took last. */
  predicate AcceptedAt(log: seq<Entry>, pool: string, o: nat, a: nat, part: Part, serial: string, paths: seq<string>) {
    && o < a < |log| && log[a] == Accepted(pool, serial, paths) && serial != part.serial
    && forall i | a < i < |log| :: Concerns(log[i], pool) ==> !log[i].Accepted?
  }

  predicate BuiltAt(log: seq<Entry>, pool: string, a: nat, b: nat, device: string) {
    a < b < |log| && log[b] == Built(pool, device)
  }

  /** The path's measured size is enough, and on a drive with several paths it is
      the multipath device built for them. */
  predicate ValidatedAt(log: seq<Entry>, pool: string, a: nat, b: nat, v: nat, part: Part, paths: seq<string>,
                        path: string) {
    && a < v < |log| && log[v].Validated? && log[v].pool == pool && log[v].path == path
    && (part.capacity > 0 ==> log[v].size >= part.capacity)
    && if |paths| >= 2 then b < v && BuiltAt(log, pool, a, b, path) else paths == [path]
  }

  predicate Explains(log: seq<Entry>, pool: string, phase: Phase, o: nat, a: nat, b: nat, v: nat) {
    match phase
    case Watching(part) => OpenedAt(log, pool, o, part)
    case Taken(part, serial, paths) => OpenedAt(log, pool, o, part) && AcceptedAt(log, pool, o, a, part, serial, paths)
    case Joined(part, serial, paths, device) =>
      OpenedAt(log, pool, o, part) && AcceptedAt(log, pool, o, a, part, serial, paths)
          && BuiltAt(log, pool, a, b, device)
    case Ready(part, serial, paths, path) =>
      OpenedAt(log, pool, o, part) && AcceptedAt(log, pool, o, a, part, serial, paths)
      && ValidatedAt(log, pool, a, b, v, part, paths, path)
    case Cleared(part, serial, paths, path) =>
      OpenedAt(log, pool, o, part) && AcceptedAt(log, pool, o, a, part, serial, paths)
      && ValidatedAt(log, pool, a, b, v, part, paths, path)
    case _ => true
  }

  lemma ExplainsOther(log: seq<Entry>, e: Entry, pool: string, phase: Phase, o: nat, a: nat, b: nat, v: nat)
    requires Explains(log, pool, phase, o, a, b, v) && !Concerns(e, pool)
    ensures Explains(log + [e], pool, phase, o, a, b, v)
  {
  }

  lemma ExplainsOpened(auto: bool, log: seq<Entry>, e: Entry, pool: string, o: nat, a: nat, b: nat, v: nat)
    requires Explains(log, pool, Judge(auto, log, pool), o, a, b, v) && e.Opened? && Concerns(e, pool)
    ensures Explains(log + [e], pool, Judge(auto, log + [e], pool), |log|, a, b, v)
  {
    JudgeOne(auto, log, e, pool);
  }

  lemma ExplainsAccepted(auto: bool, log: seq<Entry>, e: Entry, pool: string, o: nat, a: nat, b: nat, v: nat)
    requires Explains(log, pool, Judge(auto, log, pool), o, a, b, v) && e.Accepted? && Concerns(e, pool)
    ensures Explains(log + [e], pool, Judge(auto, log + [e], pool), o, |log|, b, v)
  {
    JudgeOne(auto, log, e, pool);
  }

  lemma ExplainsBuilt(auto: bool, log: seq<Entry>, e: Entry, pool: string, o: nat, a: nat, b: nat, v: nat)
    requires Explains(log, pool, Judge(auto, log, pool), o, a, b, v) && e.Built? && Concerns(e, pool)
    ensures Explains(log + [e], pool, Judge(auto, log + [e], pool), o, a, |log|, v)
  {
    JudgeOne(auto, log, e, pool);
  }

  lemma ExplainsValidated(auto: bool, log: seq<Entry>, e: Entry, pool: string, o: nat, a: nat, b: nat, v: nat)
    requires Explains(log, pool, Judge(auto, log, pool), o, a, b, v) && e.Validated? && Concerns(e, pool)
    ensures Explains(log + [e], pool, Judge(auto, log + [e], pool), o, a, b, |log|)
  {
    JudgeOne(auto, log, e, pool);
  }

  lemma ExplainsRest(auto: bool, log: seq<Entry>, e: Entry, pool: string, o: nat, a: nat, b: nat, v: nat)
    requires Explains(log, pool, Judge(auto, log, pool), o, a, b, v)
    requires Concerns(e, pool) && !e.Opened? && !e.Accepted? && !e.Built? && !e.Validated?
    ensures Explains(log + [e], pool, Judge(auto, log + [e], pool), o, a, b, v)
  {
    JudgeOne(auto, log, e, pool);
  }

  lemma ExplainsStep(auto: bool, log: seq<Entry>, e: Entry, pool: string, o: nat, a: nat, b: nat, v: nat)
    returns (o': nat, a': nat, b': nat, v': nat)
    requires Explains(log, pool, Judge(auto, log, pool), o, a, b, v)
    ensures Explains(log + [e], pool, Judge(auto, log + [e], pool), o', a', b', v')
  {
    o', a', b', v' := o, a, b, v;
    if !Concerns(e, pool) {
      JudgeOne(auto, log, e, pool);
      ExplainsOther(log, e, pool, Judge(auto, log, pool), o, a, b, v);
    } else if e.Opened? {
      o' := |log|;
      ExplainsOpened(auto, log, e, pool, o, a, b, v);
    } else if e.Accepted? {
      a' := |log|;
      ExplainsAccepted(auto, log, e, pool, o, a, b, v);
    } else if e.Built? {
      b' := |log|;
      ExplainsBuilt(auto, log, e, pool, o, a, b, v);
    } else if e.Validated? {
      v' := |log|;
      ExplainsValidated(auto, log, e, pool, o, a, b, v);
    } else {
      ExplainsRest(auto, log, e, pool, o, a, b, v);
    }
  }

  /** The phase a log puts a pool in is explained by positions in the log. */
  lemma {:induction false} Explained(auto: bool, log: seq<Entry>, pool: string) returns (o: nat, a: nat, b: nat, v: nat)
    ensures Explains(log, pool, Judge(auto, log, pool), o, a, b, v)
  {
    if log == [] {
      o, a, b, v := 0, 0, 0, 0;
    } else {
      var init := log[..|log| - 1];
      assert log == init + [log[|log| - 1]];
      o, a, b, v := Explained(auto, init, pool);
      o, a, b, v := ExplainsStep(auto, init, log[|log| - 1], pool, o, a, b, v);
    }
  }

  /** The log of a run. */
  function LogOf(auto: bool, enclosures: seq<string>, ops: seq<Op>): seq<Entry> {
    Run(Start(auto, enclosures), ops).log
  }

  lemma NeverBroken(auto: bool, enclosures: seq<string>, ops: seq<Op>, pool: string, n: nat)
    requires n <= |LogOf(auto, enclosures, ops)|
    ensures Judge(auto, LogOf(auto, enclosures, ops)[..n], pool) != Broken
  {
    ProtocolFollowed(auto, enclosures, ops);
    assert PoolFits(Run(Start(auto, enclosures), ops), pool);
    BrokenStays(auto, LogOf(auto, enclosures, ops), pool, n);
  }

  /** An accepted drive's paths have names, and a multipath device is built right
      after its drive was accepted and has a name that is not one of its paths. */
  predicate NamedAt(log: seq<Entry>, n: nat)
    requires n < |log|
  {
    match log[n]
    case Accepted(_, _, paths) => "" !in paths
    case Built(pool, device) =>
      n > 0 && log[n - 1].Accepted? && log[n - 1].pool == pool && device != "" && device !in log[n - 1].paths
    case _ => true
  }

  predicate Named(log: seq<Entry>) {
    forall n | 0 <= n < |log| :: NamedAt(log, n)
  }

  lemma NamedConcat(a: seq<Entry>, b: seq<Entry>)
    requires Named(a) && Named(b)
    ensures Named(a + b)
  {
    forall n | 0 <= n < |a + b| ensures NamedAt(a + b, n) {
      if n < |a| {
        assert NamedAt(a, n);
      } else {
        assert NamedAt(b, n - |a|);
      }
    }
  }

  /** Entries without accepted drives and built devices. */
  lemma NamedPlain(entries: seq<Entry>)
    requires forall e | e in entries :: !e.Accepted? && !e.Built?
    ensures Named(entries)
  {
  }

  lemma AcceptNamed(auto: bool, wf: Workflow, d: Drive, scan: Scan)
    requires "" !in Paths(d)
             && (scan.multipath.Some? ==> scan.multipath.value != "" && scan.multipath.value !in Paths(d))
    ensures Named(Accept(auto, wf, d, scan).entries)
  {
    var taken := wf.(newDevice := d.first, newSerial := d.serial);
    var accepted := Accepted(wf.pool, d.serial, Paths(d));
    if |Paths(d)| >= 2 && scan.multipath.Some? {
      var device := scan.multipath.value;
      var joined, built := taken.(multipathDevice := device), Built(wf.pool, device);
      var rest := Validate(auto, joined, device, scan).entries;
      assert Accept(auto, wf, d, scan).entries == [accepted, built] + rest;
      NamedPlain(rest);
      NamedConcat([accepted, built], rest);
    } else if |Paths(d)| >= 2 {
    } else {
      var rest := Validate(auto, taken, d.first, scan).entries;
      NamedPlain(rest);
      NamedConcat([accepted], rest);
    }
  }

  lemma ObserveNamed(s: System, o: Observation)
    requires Named(s.log)
    ensures Named(Observe(s, o).log)
  {
    if IsDegraded(o) {
      var i := FirstFailed(o.kind, o.parts);
      if o.name !in s.active && i < |o.parts| {
        NamedPlain(MarkEntries(o.parts[i]));
        NamedConcat(s.log, MarkEntries(o.parts[i]));
        NamedConcat(s.log + MarkEntries(o.parts[i]), [Opened(o.name, o.kind, o.parts[i])]);
      }
    } else if Observe(s, o) != s {
      var wf := s.active[o.name];
      DarkenIsLeds(s.enclosures, wf.slotIndex);
      NamedPlain(Darken(s.enclosures, wf.slotIndex));
      NamedConcat(s.log, Darken(s.enclosures, wf.slotIndex));
      NamedConcat(s.log + Darken(s.enclosures, wf.slotIndex), [Completed(wf.pool)]);
    }
  }

  lemma StepNamed(s: System, op: Op)
    requires Named(s.log) && Plausible(op)
    ensures Named(Step(s, op).log)
  {
    match op
    case Seen(o) => ObserveNamed(s, o);
    case Scanned(key, scan) =>
      if key in s.active && s.active[key].state == WaitingNewDrive {
        var wf := s.active[key];
        var i := FirstCandidate(s.active, wf, scan.existing, scan.drives);
        if i < |scan.drives| {
          AcceptNamed(s.auto, wf, scan.drives[i], scan);
          NamedConcat(s.log, Accept(s.auto, wf, scan.drives[i], scan).entries);
        }
      }
    case ApprovedBy(key, ok) =>
      if key in s.active && s.active[key].state == Validating {
        var done := Replace(s.active[key], ok);
        NamedPlain([Approved(done.wf.pool)] + done.entries);
        NamedConcat(s.log, [Approved(done.wf.pool)] + done.entries);
      }
  }

  lemma {:induction false} NamesKept(auto: bool, enclosures: seq<string>, ops: seq<Op>)
    requires AllPlausible(ops)
    ensures Named(LogOf(auto, enclosures, ops))
  {
    if ops == [] {
    } else {
      NamesKept(auto, enclosures, ops[..|ops| - 1]);
      StepNamed(Run(Start(auto, enclosures), ops[..|ops| - 1]), ops[|ops| - 1]);
    }
  }

  lemma CommandIsNamed(log: seq<Entry>, n: nat, part: Part, serial: string, paths: seq<string>, o: nat, a: nat,
                       b: nat, v: nat)
    requires Named(log) && n < |log| && log[n].Replaced?
    requires AcceptedAt(log[..n], log[n].pool, o, a, part, serial, paths)
    requires ValidatedAt(log[..n], log[n].pool, a, b, v, part, paths, log[n].path)
    ensures log[n].path != "" && (|paths| >= 2 ==> log[n].path !in paths)
  {
    assert NamedAt(log, a) && log[a] == log[..n][a];
    if |paths| >= 2 {
      assert NamedAt(log, b) && log[b] == log[..n][b];
      assert log[..n][b - 1] == log[b - 1];
      assert b - 1 == a;
    } else {
      assert log[n].path in paths;
    }
  }

  /** Every replace command of every run is safe: since the workflow of its pool
      was opened (at o) a drive was taken (at a) whose serial is not the failed
      one, the path was measured (at v) and is large enough whenever the failed
      capacity is known, and if the scan saw the drive on several paths the path
      is the multipath device built for it (at b). With plausible names the path
      is not empty, and not one of several raw paths. */
  lemma ReplaceIsSafe(auto: bool, enclosures: seq<string>, ops: seq<Op>, n: nat)
    returns (part: Part, serial: string, paths: seq<string>, o: nat, a: nat, b: nat, v: nat)
    requires n < |LogOf(auto, enclosures, ops)| && LogOf(auto, enclosures, ops)[n].Replaced?
    ensures var log := LogOf(auto, enclosures, ops);
            var cmd := log[n];
            && OpenedAt(log[..n], cmd.pool, o, part) && AcceptedAt(log[..n], cmd.pool, o, a, part, serial, paths)
            && ValidatedAt(log[..n], cmd.pool, a, b, v, part, paths, cmd.path)
            && cmd.failed == part.device && cmd.tool == ToolFor(cmd.pool)
            && (AllPlausible(ops) ==> cmd.path != "" && (|paths| >= 2 ==> cmd.path !in paths))
  {
    var log := LogOf(auto, enclosures, ops);
    var pool := log[n].pool;
    NeverBroken(auto, enclosures, ops, pool, n);
    NeverBroken(auto, enclosures, ops, pool, n + 1);
    assert log[..n + 1] == log[..n] + [log[n]];
    JudgeOne(auto, log[..n], log[n], pool);
    o, a, b, v := Explained(auto, log[..n], pool);
    var phase := Judge(auto, log[..n], pool);
    part, serial, paths := phase.part, phase.serial, phase.paths;
    if AllPlausible(ops) {
      NamesKept(auto, enclosures, ops);
      CommandIsNamed(log, n, part, serial, paths, o, a, b, v);
    }
  }

  /** A drive is refused for its size only if the failed capacity is known and the
      measured size is below it. */
  lemma RefusedIsTooSmall(auto: bool, enclosures: seq<string>, ops: seq<Op>, n: nat) returns (part: Part, o: nat)
    requires n < |LogOf(auto, enclosures, ops)| && LogOf(auto, enclosures, ops)[n].CapacityMismatch?
    ensures var log := LogOf(auto, enclosures, ops);
            OpenedAt(log[..n], log[n].pool, o, part) && part.capacity > 0 && log[n].size < part.capacity
  {
    var log := LogOf(auto, enclosures, ops);
    var pool := log[n].pool;
    NeverBroken(auto, enclosures, ops, pool, n);
    NeverBroken(auto, enclosures, ops, pool, n + 1);
    assert log[..n + 1] == log[..n] + [log[n]];
    JudgeOne(auto, log[..n], log[n], pool);
    var a, b, v;
    o, a, b, v := Explained(auto, log[..n], pool);
    part := Judge(auto, log[..n], pool).part;
  }

  /** After a replace command the pool stays in that phase until a completion. */
  lemma {:induction false} IssuedUntilCompleted(auto: bool, log: seq<Entry>, pool: string, n: nat)
    requires n < |log| && log[n].Replaced? && log[n].pool == pool && Judge(auto, log, pool) != Broken
    requires forall k | n < k < |log| :: log[k] != Completed(pool)
    ensures Judge(auto, log, pool).Issued?
  {
    var init, e := log[..|log| - 1], log[|log| - 1];
    assert log == init + [e];
    JudgeOne(auto, init, e, pool);
    if n < |init| {
      BrokenStays(auto, log, pool, |init|);
      IssuedUntilCompleted(auto, init, pool, n);
    }
  }

  /** Two replace commands for one pool are separated by a completion, so no
      workflow issues more than one. */
  lemma ReplacesAreSeparated(auto: bool, enclosures: seq<string>, ops: seq<Op>, n: nat, m: nat)
    requires n < m < |LogOf(auto, enclosures, ops)|
    requires var log := LogOf(auto, enclosures, ops);
             log[n].Replaced? && log[m].Replaced? && log[n].pool == log[m].pool
    ensures var log := LogOf(auto, enclosures, ops);
            exists k :: n < k < m && log[k] == Completed(log[n].pool)
  {
    var log := LogOf(auto, enclosures, ops);
    var pool := log[n].pool;
    if forall k | n < k < m :: log[k] != Completed(pool) {
      NeverBroken(auto, enclosures, ops, pool, m);
      NeverBroken(auto, enclosures, ops, pool, m + 1);
      assert log[..m + 1] == log[..m] + [log[m]];
      JudgeOne(auto, log[..m], log[m], pool);
      IssuedUntilCompleted(auto, log[..m], pool, n);
    }
  }

  lemma {:induction false} ClearedByApproval(auto: bool, log: seq<Entry>, pool: string) returns (k: nat)
    requires Judge(auto, log, pool).Cleared?
    ensures !auto && k < |log| && log[k] == Approved(pool) && forall i | k < i < |log| :: !Concerns(log[i], pool)
  {
    var init, e := log[..|log| - 1], log[|log| - 1];
    assert log == init + [e];
    JudgeOne(auto, init, e, pool);
    if Concerns(e, pool) {
      k := |init|;
    } else {
      k := ClearedByApproval(auto, init, pool);
    }
  }

  /** Without automatic replacement every replace command has an approval of its
      own: the last thing that happened to the pool before it. */
  lemma EachReplaceApproved(enclosures: seq<string>, ops: seq<Op>, n: nat) returns (k: nat)
    requires n < |LogOf(false, enclosures, ops)| && LogOf(false, enclosures, ops)[n].Replaced?
    ensures var log := LogOf(false, enclosures, ops);
            && k < n && log[k] == Approved(log[n].pool)
            && forall i | k < i < n :: !Concerns(log[i], log[n].pool)
  {
    var log := LogOf(false, enclosures, ops);
    var pool := log[n].pool;
    NeverBroken(false, enclosures, ops, pool, n);
    NeverBroken(false, enclosures, ops, pool, n + 1);
    assert log[..n + 1] == log[..n] + [log[n]];
    JudgeOne(false, log[..n], log[n], pool);
    k := ClearedByApproval(false, log[..n], pool);
  }

  lemma StepLeavesFailed(s: System, op: Op, key: string)
    requires OwnKeys(s.active) && key in s.active && s.active[key].state == Degraded
    ensures key in Step(s, op).active && Step(s, op).active[key] == s.active[key]
  {
  }

  lemma {:induction false} RunKeepsOwnKeys(s: System, ops: seq<Op>)
    requires OwnKeys(s.active)
    ensures OwnKeys(Run(s, ops).active)
  {
    if ops == [] {
    } else {
      RunKeepsOwnKeys(s, ops[..|ops| - 1]);
      StepKeepsOwnKeys(Run(s, ops[..|ops| - 1]), ops[|ops| - 1]);
    }
  }

  /** A workflow whose replace command failed is never taken up again: no run
      changes or removes it, so the pool is not handled any more. */
  lemma {:induction false} FailedReplaceIsFinal(s: System, ops: seq<Op>, key: string)
    requires OwnKeys(s.active) && key in s.active && s.active[key].state == Degraded
    ensures key in Run(s, ops).active && Run(s, ops).active[key] == s.active[key]
  {
    if ops == [] {
    } else {
      var init := ops[..|ops| - 1];
      FailedReplaceIsFinal(s, init, key);
      RunKeepsOwnKeys(s, init);
      StepLeavesFailed(Run(s, init), ops[|ops| - 1], key);
    }
  }

  /** Not a failed drive of any active workflow and not a healthy member. */
  predicate IsNew(active: map<string, Workflow>, existing: set<string>, serial: string) {
    serial !in existing && forall k | k in active :: active[k].failedSerial != serial
  }

  /** A waiting workflow takes the first drive of the scan that is new, and takes
      none exactly when there is no new drive. */
  lemma TakesFirstNewDrive(s: System, key: string, scan: Scan)
    requires OwnKeys(s.active) && key in s.active && s.active[key].state == WaitingNewDrive
    ensures var log := Check(s, key, scan).log;
            && (log == s.log <==> forall d | d in scan.drives :: !IsNew(s.active, scan.existing, d.serial))
            && (log != s.log ==>
                  exists i :: 0 <= i < |scan.drives| && IsNew(s.active, scan.existing, scan.drives[i].serial)
                              && (forall j | 0 <= j < i :: !IsNew(s.active, scan.existing, scan.drives[j].serial))
                              && |log| > |s.log| && log[|s.log|] == Accepted(key, scan.drives[i].serial,
                                 Paths(scan.drives[i])))
  {
    var wf := s.active[key];
    forall serial ensures IsCandidate(s.active, wf, scan.existing, serial)
        <==> IsNew(s.active, scan.existing, serial) {}
    var i := FirstCandidate(s.active, wf, scan.existing, scan.drives);
    if i < |scan.drives| {
      assert scan.drives[i] in scan.drives;
    }
  }

  // ---------------------------------------------------------------------
  // What is not guaranteed
  // ---------------------------------------------------------------------

  /** The command is chosen by the pool's name: it fits the subsystem the
      workflow was opened for exactly when a name with "md" in it is an array's. */
  lemma ToolFitsKind(auto: bool, enclosures: seq<string>, ops: seq<Op>, n: nat) returns (o: nat)
    requires n < |LogOf(auto, enclosures, ops)| && LogOf(auto, enclosures, ops)[n].Replaced?
    ensures var log := LogOf(auto, enclosures, ops);
            && o < n && log[o].Opened? && log[o].pool == log[n].pool
            && (log[n].tool == (if log[o].kind == Md then Mdadm else Zpool) <==>
                ((exists before: string, after: string :: log[n].pool == before + "md" + after) <==> log[o].kind == Md))
  {
    MentionsMdIs(LogOf(auto, enclosures, ops)[n].pool);
    var part, serial, paths, a, b, v;
    part, serial, paths, o, a, b, v := ReplaceIsSafe(auto, enclosures, ops, n);
  }

  lemma MentionsMdIs(name: string)
    ensures MentionsMd(name) <==> exists before: string, after: string :: name == before + "md" + after
  {
    if MentionsMd(name) {
      var i :| 0 <= i < |name| - 1 && name[i] == 'm' && name[i + 1] == 'd';
      assert name == name[..i] + "md" + name[i + 2..];
    }
    if before: string, after: string :| name == before + "md" + after {
      assert name[|before|] == 'm' && name[|before| + 1] == 'd';
    }
  }

  /** A ZFS pool named "mdata" is replaced with the array tool. */
  lemma ZfsPoolGetsMdadm(part: Part, drive: Drive)
    requires part.state == "FAULTED" && part.serial != drive.serial && part.capacity == 0 && drive.more == []
    ensures var ops := [Seen(Observation(Zfs, "mdata", "DEGRADED", false, [part])),
                        Scanned("mdata", Scan([drive], {}, None, map[], true))];
            var log := LogOf(true, [], ops);
            log != [] && log[|log| - 1] == Replaced("mdata", Mdadm, part.device, drive.first, true)
  {
    var o := Observation(Zfs, "mdata", "DEGRADED", false, [part]);
    var scan := Scan([drive], {}, None, map[], true);
    var ops := [Seen(o), Scanned("mdata", scan)];
    assert ops[..1] == [Seen(o)] && ops[..1][..0] == [];
    var s0 := Start(true, []);
    assert "mdata"[0] == 'm' && "mdata"[1] == 'd';
    assert HasFailed(Zfs, o.parts[0]);
    var s1 := Open(s0, "mdata", Zfs, part);
    assert Run(s0, ops[..1]) == s1;
    assert IsCandidate(s1.active, s1.active["mdata"], {}, scan.drives[0].serial);
    assert Run(s0, ops) == Check(s1, "mdata", scan);
  }

  lemma AcceptKeepsFailure(auto: bool, wf: Workflow, d: Drive, scan: Scan)
    ensures Accept(auto, wf, d, scan).wf.pool == wf.pool
    ensures Accept(auto, wf, d, scan).wf.failedSerial == wf.failedSerial
  {
  }

  lemma CheckKeepsOthers(s: System, key: string, scan: Scan)
    requires OwnKeys(s.active)
    ensures var s' := Check(s, key, scan);
            && s'.active.Keys == s.active.Keys
            && (forall k | k in s.active :: s'.active[k].failedSerial == s.active[k].failedSerial)
            && (forall k | k in s.active && k != key :: s'.active[k] == s.active[k])
  {
    if key in s.active && s.active[key].state == WaitingNewDrive {
      var wf := s.active[key];
      var i := FirstCandidate(s.active, wf, scan.existing, scan.drives);
      if i < |scan.drives| {
        AcceptKeepsFailure(s.auto, wf, scan.drives[i], scan);
        assert Check(s, key, scan) == Put(s, Accept(s.auto, wf, scan.drives[i], scan));
      }
    }
  }

  lemma TakingReservesNothing(s: System, key: string, scan: Scan, other: string, existing: set<string>, serial: string)
    requires OwnKeys(s.active) && key != other && other in s.active
    ensures var s' := Check(s, key, scan);
            && other in s'.active && s'.active[other] == s.active[other]
            && (IsCandidate(s'.active, s'.active[other], existing, serial)
                <==> IsCandidate(s.active, s.active[other], existing, serial))
  {
    CheckKeepsOthers(s, key, scan);
    SameCandidates(s.active, Check(s, key, scan).active, s.active[other], existing, serial);
  }

  /** Only the failed serials count. */
  lemma SameCandidates(active: map<string, Workflow>, active': map<string, Workflow>, wf: Workflow,
                       existing: set<string>, serial: string)
    requires active.Keys == active'.Keys && forall k | k in active :: active[k].failedSerial == active'[k].failedSerial
    ensures IsCandidate(active, wf, existing, serial) <==> IsCandidate(active', wf, existing, serial)
  {
  }

  /** Two waiting workflows that scan the same drives: after the first has taken
      one, the second takes the same one exactly when that drive is not a healthy
      member for it and no earlier drive is new to it. */
  lemma SameDriveTakenTwice(s: System, key: string, scan: Scan, other: string, scan': Scan, i: nat)
    requires OwnKeys(s.active) && key in s.active && other in s.active && key != other
    requires s.active[key].state == WaitingNewDrive && s.active[other].state == WaitingNewDrive
    requires scan.drives == scan'.drives && i < |scan.drives|
    requires FirstCandidate(s.active, s.active[key], scan.existing, scan.drives) == i
    ensures var s' := Check(s, key, scan);
            && other in s'.active && s'.active[other].state == WaitingNewDrive
            && (FirstCandidate(s'.active, s'.active[other], scan'.existing, scan.drives) == i <==>
                && scan.drives[i].serial !in scan'.existing
                && forall j | 0 <= j < i :: !IsNew(s.active, scan'.existing, scan.drives[j].serial))
  {
    var s' := Check(s, key, scan);
    forall serial
      ensures IsCandidate(s'.active, s'.active[other], scan'.existing, serial)
              <==> IsNew(s.active, scan'.existing, serial)
    {
      TakingReservesNothing(s, key, scan, other, scan'.existing, serial);
    }
    assert IsCandidate(s.active, s.active[key], scan.existing, scan.drives[i].serial);
    assert IsNew(s.active, {}, scan.drives[i].serial);
  }

  lemma RunSnoc(s: System, ops: seq<Op>, op: Op)
    ensures Run(s, ops + [op]) == Step(Run(s, ops), op)
  {
    assert (ops + [op])[..|ops|] == ops;
  }

  /** A pool that is observed degraded, and the workflow that opens. */
  function DegradedPool(name: string, part: Part): Observation {
    Observation(Zfs, name, "DEGRADED", false, [part])
  }

  lemma PoolOpens(s: System, name: string, part: Part)
    requires name !in s.active && part.state == "FAULTED"
    ensures Observe(s, DegradedPool(name, part)) == Open(s, name, Zfs, part)
  {
    assert HasFailed(Zfs, DegradedPool(name, part).parts[0]);
  }

  /** A drive seen on one path, taken and used at once. */
  lemma OnlyDriveIsUsed(s: System, name: string, drive: Drive)
    requires s.auto && name in s.active && s.active[name].pool == name && s.active[name].state == WaitingNewDrive
    requires s.active[name].failedCapacity == 0 && drive.more == []
    requires forall k | k in s.active :: s.active[k].failedSerial != drive.serial
    ensures var s' := Check(s, name, OnlyDrive(drive));
            && s'.active.Keys == s.active.Keys
            && (forall k | k in s.active && k != name :: s'.active[k] == s.active[k])
            && |s'.log| > |s.log| && s'.log[..|s.log|] == s.log
            && s'.log[|s'.log| - 1] == Replaced(name, ToolFor(name), s.active[name].failedDevice, drive.first, true)
  {
    assert IsCandidate(s.active, s.active[name], {}, OnlyDrive(drive).drives[0].serial);
    assert Check(s, name, OnlyDrive(drive)) == Put(s, Accept(true, s.active[name], drive, OnlyDrive(drive)));
  }

  lemma {:induction false} RunConcat(s: System, ops: seq<Op>, more: seq<Op>)
    ensures Run(s, ops + more) == Run(Run(s, ops), more)
  {
    if more == [] {
      assert ops + more == ops;
    } else {
      assert (ops + more)[..|ops + more| - 1] == ops + more[..|more| - 1];
      RunConcat(s, ops, more[..|more| - 1]);
    }
  }

  /** The pool as seen once its rebuild is over. */
  function RebuiltPool(name: string): Observation {
    Observation(Zfs, name, "ONLINE", false, [])
  }

  lemma RunOfTwo(s: System, o1: Op, o2: Op)
    ensures Run(s, [o1, o2]) == Step(Step(s, o1), o2)
  {
    RunSnoc(s, [], o1);
    RunSnoc(s, [o1], o2);
    assert [] + [o1] == [o1] && [o1] + [o2] == [o1, o2];
  }

  lemma RunOfFour(s: System, o1: Op, o2: Op, o3: Op, o4: Op)
    ensures Run(s, [o1, o2, o3, o4]) == Step(Step(Step(Step(s, o1), o2), o3), o4)
  {
    RunSnoc(s, [], o1);
    RunSnoc(s, [o1], o2);
    RunSnoc(s, [o1, o2], o3);
    RunSnoc(s, [o1, o2, o3], o4);
    assert [] + [o1] == [o1] && [o1] + [o2] == [o1, o2] && [o1, o2] + [o3] == [o1, o2, o3];
    assert [o1, o2, o3] + [o4] == [o1, o2, o3, o4];
  }

  function OnlyDrive(drive: Drive): Scan {
    Scan([drive], {}, None, map[], true)
  }

  lemma BothUseIt(s: System, tank: string, vault: string, part: Part, part': Part, drive: Drive)
    requires s == Open(Open(Start(true, []), tank, Zfs, part), vault, Zfs, part') && tank != vault
    requires part.capacity == 0 && part.serial != drive.serial
    requires part'.capacity == 0 && part'.serial != drive.serial && drive.more == []
    ensures var log := Check(Check(s, tank, OnlyDrive(drive)), vault, OnlyDrive(drive)).log;
            && Replaced(tank, ToolFor(tank), part.device, drive.first, true) in log
            && Replaced(vault, ToolFor(vault), part'.device, drive.first, true) in log
  {
    OnlyDriveIsUsed(s, tank, drive);
    var s3 := Check(s, tank, OnlyDrive(drive));
    OnlyDriveIsUsed(s3, vault, drive);
    var s4 := Check(s3, vault, OnlyDrive(drive));
    assert s4.log[|s3.log| - 1] == s4.log[..|s3.log|][|s3.log| - 1] == s3.log[|s3.log| - 1];
  }

  /** A run in which one drive goes to two pools: both are degraded, and both scans
      find the same new drive. */
  lemma OneDriveTwoPools(tank: string, vault: string, part: Part, part': Part, drive: Drive)
    requires tank != vault && part.state == "FAULTED" && part'.state == "FAULTED"
    requires part.capacity == 0 && part.serial != drive.serial
    requires part'.capacity == 0 && part'.serial != drive.serial && drive.more == []
    ensures var log := LogOf(true, [], [Seen(DegradedPool(tank, part)), Seen(DegradedPool(vault, part')),
                                        Scanned(tank, OnlyDrive(drive)), Scanned(vault, OnlyDrive(drive))]);
            && Replaced(tank, ToolFor(tank), part.device, drive.first, true) in log
            && Replaced(vault, ToolFor(vault), part'.device, drive.first, true) in log
  {
    var s0 := Start(true, []);
    RunOfFour(s0, Seen(DegradedPool(tank, part)), Seen(DegradedPool(vault, part')),
              Scanned(tank, OnlyDrive(drive)), Scanned(vault, OnlyDrive(drive)));
    PoolOpens(s0, tank, part);
    PoolOpens(Open(s0, tank, Zfs, part), vault, part');
    BothUseIt(Open(Open(s0, tank, Zfs, part), vault, Zfs, part'), tank, vault, part, part', drive);
  }
}
