/**
 What each step of the orchestrator makes of what it is told: which observations
 open and complete a workflow, where a new drive ends up, and in which order one
 monitoring iteration goes about it.
 */
module ReplacementOutcomes {
  import opened Options
  import opened Orchestrator
  import opened ReplacementProtocol

  // ---------------------------------------------------------------------
  // Observations
  // ---------------------------------------------------------------------

  /** The status says that redundancy is lost. */
  predicate SaysDegraded(o: Observation) {
    || (o.kind == Zfs && o.state in {"DEGRADED", "FAULTED", "UNAVAIL"})
    || (o.kind == Md && o.state in {"degraded", "inactive", "recovering"})
  }

  predicate SaysFailed(o: Observation, p: Part) {
    || (o.kind == Zfs && p.state in {"FAULTED", "REMOVED", "UNAVAIL"})
    || (o.kind == Md && p.state == "faulty")
  }

  /** An observation opens a workflow exactly for a degraded pool that has none and
      of which some part failed; the workflow is for the first such part, waits for
      a drive and knows its slot exactly if its serial was found in one. */
  lemma OpensExactly(s: System, o: Observation)
    requires o.name !in s.active
    ensures var s' := Observe(s, o);
            && (o.name in s'.active <==> SaysDegraded(o) && exists p :: p in o.parts && SaysFailed(o, p))
            && (o.name !in s'.active ==> s' == s)
    ensures o.name in Observe(s, o).active ==>
              exists i :: 0 <= i < |o.parts| && SaysFailed(o, o.parts[i])
                          && (forall j | 0 <= j < i :: !SaysFailed(o, o.parts[j])) && OpenedFor(s, o, o.parts[i])
  {
    var i := FirstFailed(o.kind, o.parts);
    if i < |o.parts| {
      assert SaysFailed(o, o.parts[i]) && o.parts[i] in o.parts;
      assert forall j | 0 <= j < i :: !SaysFailed(o, o.parts[j]);
      if SaysDegraded(o) {
        assert OpenedFor(s, o, o.parts[i]);
      }
    }
  }

  ghost predicate OpenedFor(s: System, o: Observation, p: Part) {
    var s' := Observe(s, o);
    && s'.active.Keys == s.active.Keys + {o.name} && (forall k | k in s.active :: s'.active[k] == s.active[k])
    && s'.order == s.order + [o.name] && s'.log != [] && s'.log[|s'.log| - 1] == Opened(o.name, o.kind, p)
    && s'.active[o.name].pool == o.name && s'.active[o.name].state == WaitingNewDrive
    && s'.active[o.name].failedDevice == p.device && s'.active[o.name].failedSerial == p.serial
    && s'.active[o.name].failedCapacity == p.capacity
    && s'.active[o.name].slotIndex == if p.serial != "" && p.slot.Some? then p.slot.value.index else -1
  }

  /** An observation of a pool that has a workflow completes it exactly when the pool
      is not degraded, the workflow resilvers, and no rebuild is going on; else it
      changes nothing. */
  lemma CompletesExactly(s: System, o: Observation)
    requires OwnKeys(s.active) && o.name in s.active
    ensures var s' := Observe(s, o);
            && (o.name !in s'.active <==>
                !SaysDegraded(o) && s.active[o.name].state == Resilvering && !o.rebuilding)
            && (o.name in s'.active ==> s' == s)
            && (o.name !in s'.active ==>
                  && s'.active.Keys == s.active.Keys - {o.name}
                  && (forall k | k in s'.active :: s'.active[k] == s.active[k])
                  && s'.log != [] && s'.log[|s'.log| - 1] == Completed(o.name))
  {
  }

  // ---------------------------------------------------------------------
  // New drives
  // ---------------------------------------------------------------------

  /** The device a drive is used through, if there is one: its only path, or the
      multipath device. */
  function DeviceOf(d: Drive, scan: Scan): Option<string> {
    if d.more == [] then Some(d.first) else scan.multipath
  }

  /** A path whose size cannot be read counts as empty. */
  function Measured(scan: Scan, path: string): nat {
    if path in scan.sizes then scan.sizes[path] else 0
  }

  /** Where the first new drive of a scan takes a waiting workflow. It goes on waiting
      exactly when the drive has several paths and no multipath device can be built,
      or the failed capacity is known and the device measures less. Otherwise the
      device is the replacement, held for approval or put in place at once. */
  lemma NewDriveEnds(s: System, key: string, scan: Scan, i: nat)
    requires OwnKeys(s.active) && key in s.active && s.active[key].state == WaitingNewDrive && i < |scan.drives|
    requires IsNew(s.active, scan.existing, scan.drives[i].serial)
    requires forall j | 0 <= j < i :: !IsNew(s.active, scan.existing, scan.drives[j].serial)
    ensures var s', d, was := Check(s, key, scan), scan.drives[i], s.active[key];
            && key in s'.active && s'.active[key].newSerial == d.serial && s'.active[key].newDevice == d.first
            && var device := DeviceOf(d, scan);
               if device == None || (was.failedCapacity > 0 && Measured(scan, device.value) < was.failedCapacity) then
                 s'.active[key].state == WaitingNewDrive
               else
                 && s'.active[key].replacementPath == device.value
                 && s'.active[key].state == if !s.auto then Validating else if scan.replaceOk then Resilvering
                                            else Degraded
  {
    var wf, d := s.active[key], scan.drives[i];
    forall serial
      ensures IsCandidate(s.active, wf, scan.existing, serial) <==> IsNew(s.active, scan.existing, serial)
    {
    }
    assert FirstCandidate(s.active, wf, scan.existing, scan.drives) == i;
    assert Check(s, key, scan) == Put(s, Accept(s.auto, wf, d, scan));
    AcceptEnds(s.auto, wf, d, scan);
  }

  lemma AcceptEnds(auto: bool, wf: Workflow, d: Drive, scan: Scan)
    ensures var after, device := Accept(auto, wf, d, scan).wf, DeviceOf(d, scan);
            && after.pool == wf.pool && after.newSerial == d.serial && after.newDevice == d.first
            && if device == None || (wf.failedCapacity > 0 && Measured(scan, device.value) < wf.failedCapacity) then
                 after.state == WaitingNewDrive
               else
                 && after.replacementPath == device.value
                 && after.state == if !auto then Validating else if scan.replaceOk then Resilvering else Degraded
  {
  }

  /** So a drive on one path that measures at least the failed capacity always ends
      the wait, however large it is. */
  lemma LargeEnoughEndsWait(s: System, key: string, scan: Scan, i: nat)
    requires OwnKeys(s.active) && key in s.active && s.active[key].state == WaitingNewDrive && i < |scan.drives|
    requires IsNew(s.active, scan.existing, scan.drives[i].serial) && scan.drives[i].more == []
    requires forall j | 0 <= j < i :: !IsNew(s.active, scan.existing, scan.drives[j].serial)
    requires scan.drives[i].first in scan.sizes
    requires scan.sizes[scan.drives[i].first] >= s.active[key].failedCapacity
    ensures key in Check(s, key, scan).active && Check(s, key, scan).active[key].state != WaitingNewDrive
  {
    NewDriveEnds(s, key, scan, i);
  }

  /** An approval replaces a held drive, with the path it was held with, and tells
      by the workflow's state whether the command worked. */
  lemma ApprovalEnds(s: System, key: string, ok: bool)
    requires OwnKeys(s.active) && key in s.active && s.active[key].state == Validating
    ensures var s', was := Approve(s, key, ok), s.active[key];
            && key in s'.active && s'.active[key] == was.(state := if ok then Resilvering else Degraded)
            && |s'.log| == |s.log| + 2 && s'.log[..|s.log|] == s.log && s'.log[|s.log|] == Approved(key)
            && s'.log[|s.log| + 1]
               == Replaced(key, ToolFor(key), was.failedDevice, was.replacementPath, ok)
  {
  }

  // ---------------------------------------------------------------------
  // The order of workflows
  // ---------------------------------------------------------------------

  /** Where the pool was opened last, or -1. */
  function LastOpened(log: seq<Entry>, pool: string): (n: int)
    ensures -1 <= n < |log|
  {
    if log == [] then -1
    else if log[|log| - 1].Opened? && log[|log| - 1].pool == pool then |log| - 1
    else LastOpened(log[..|log| - 1], pool)
  }

  /** The order lists exactly the active pools, by when they were opened. */
  ghost predicate InOpeningOrder(s: System) {
    && (forall k :: k in s.order <==> k in s.active)
    && (forall i, j | 0 <= i < j < |s.order| :: LastOpened(s.log, s.order[i]) < LastOpened(s.log, s.order[j]))
  }

  lemma {:induction false} LastOpenedKept(log: seq<Entry>, more: seq<Entry>, pool: string)
    requires forall e | e in more :: !e.Opened? || e.pool != pool
    ensures LastOpened(log + more, pool) == LastOpened(log, pool)
  {
    if more == [] {
      assert log + more == log;
    } else {
      assert (log + more)[..|log + more| - 1] == log + more[..|more| - 1];
      assert more[|more| - 1] in more;
      LastOpenedKept(log, more[..|more| - 1], pool);
    }
  }

  lemma {:induction false} RemovedIs(order: seq<string>, key: string, k: string)
    ensures k in Removed(order, key) <==> k in order && k != key
  {
    if order == [] {
    } else {
      var init, last := order[..|order| - 1], order[|order| - 1];
      assert order == init + [last];
      RemovedIs(init, key, k);
    }
  }

  ghost predicate Increasing(order: seq<string>, log: seq<Entry>) {
    forall i, j | 0 <= i < j < |order| :: LastOpened(log, order[i]) < LastOpened(log, order[j])
  }

  lemma {:induction false} RemovedIncreasing(order: seq<string>, key: string, log: seq<Entry>)
    requires Increasing(order, log)
    ensures Increasing(Removed(order, key), log)
  {
    if order == [] {
    } else {
      var init, last := order[..|order| - 1], order[|order| - 1];
      RemovedIncreasing(init, key, log);
      forall k | k in Removed(init, key) ensures LastOpened(log, k) < LastOpened(log, last) {
        RemovedIs(init, key, k);
        var i :| 0 <= i < |init| && init[i] == k;
        assert order[i] == k;
      }
    }
  }

  /** A step that opens and completes nothing. */
  lemma PutKeepsOrder(s: System, pool: string, out: Outcome)
    requires InOpeningOrder(s) && pool in s.active && out.wf.pool == pool && forall e | e in out.entries :: !e.Opened?
    ensures InOpeningOrder(Put(s, out))
  {
    var s' := Put(s, out);
    forall k ensures LastOpened(s'.log, k) == LastOpened(s.log, k) {
      LastOpenedKept(s.log, out.entries, k);
    }
  }

  lemma OpenKeepsOrder(s: System, name: string, kind: Kind, part: Part)
    requires InOpeningOrder(s) && name !in s.active
    ensures InOpeningOrder(Open(s, name, kind, part))
  {
    var s' := Open(s, name, kind, part);
    var lit := s.log + MarkEntries(part);
    assert s'.log[..|s'.log| - 1] == lit;
    forall k ensures LastOpened(s'.log, k) == if k == name then |lit| else LastOpened(s.log, k) {
      LastOpenedKept(s.log, MarkEntries(part), k);
    }
    forall i | 0 <= i < |s.order| ensures s.order[i] != name { assert s.order[i] in s.order; }
  }

  lemma FinishKeepsOrder(s: System, key: string)
    requires InOpeningOrder(s) && key in s.active && s.active[key].pool == key
    ensures InOpeningOrder(Finish(s, s.active[key]))
  {
    var s', dark := Finish(s, s.active[key]), Darken(s.enclosures, s.active[key].slotIndex);
    DarkenIsLeds(s.enclosures, s.active[key].slotIndex);
    forall k ensures LastOpened(s'.log, k) == LastOpened(s.log, k) && (k in s'.order <==> k in s.order && k != key) {
      assert s'.log == s.log + (dark + [Completed(key)]);
      LastOpenedKept(s.log, dark + [Completed(key)], k);
      RemovedIs(s.order, key, k);
    }
    assert Increasing(s.order, s.log);
    RemovedIncreasing(s.order, key, s.log);
  }

  lemma StepKeepsOrder(s: System, op: Op)
    requires InOpeningOrder(s) && OwnKeys(s.active)
    ensures InOpeningOrder(Step(s, op))
  {
    match op
    case Seen(o) =>
      if IsDegraded(o) {
        var i := FirstFailed(o.kind, o.parts);
        if o.name !in s.active && i < |o.parts| { OpenKeepsOrder(s, o.name, o.kind, o.parts[i]); }
      } else if Observe(s, o) != s {
        FinishKeepsOrder(s, o.name);
      }
    case Scanned(key, scan) =>
      if key in s.active && s.active[key].state == WaitingNewDrive {
        var i := FirstCandidate(s.active, s.active[key], scan.existing, scan.drives);
        if i < |scan.drives| { PutKeepsOrder(s, key, Accept(s.auto, s.active[key], scan.drives[i], scan)); }
      }
    case ApprovedBy(key, ok) =>
      if key in s.active && s.active[key].state == Validating {
        var done := Replace(s.active[key], ok);
        PutKeepsOrder(s, key, Outcome(done.wf, [Approved(done.wf.pool)] + done.entries));
      }
  }

  /** Over every run the workflows are listed in the order in which they were opened,
      each once. */
  lemma {:induction false} OrderIsByOpening(auto: bool, enclosures: seq<string>, ops: seq<Op>)
    ensures InOpeningOrder(Run(Start(auto, enclosures), ops))
  {
    if ops == [] {
    } else {
      OrderIsByOpening(auto, enclosures, ops[..|ops| - 1]);
      RunKeepsOwnKeys(Start(auto, enclosures), ops[..|ops| - 1]);
      StepKeepsOrder(Run(Start(auto, enclosures), ops[..|ops| - 1]), ops[|ops| - 1]);
    }
  }

  /** An array that is observed degraded. */
  function DegradedArray(name: string, part: Part): Observation {
    Observation(Md, name, "degraded", false, [part])
  }

  /** An iteration that finds a degraded pool and a degraded array opens the pool's
      workflow, then the array's, and then lets the two look for a drive in turn. */
  lemma OneIteration(auto: bool, enclosures: seq<string>, pool: string, raid: string, part: Part, part': Part,
                     scans: string -> Scan)
    requires pool != raid && part.state == "FAULTED" && part'.state == "faulty"
    ensures Monitor(Start(auto, enclosures), [DegradedPool(pool, part)], [DegradedArray(raid, part')], scans)
            == Check(Check(Open(Open(Start(auto, enclosures), pool, Zfs, part), raid, Md, part'), pool, scans(pool)),
                     raid, scans(raid))
  {
    var s0 := Start(auto, enclosures);
    var s1 := Open(s0, pool, Zfs, part);
    var s2 := Open(s1, raid, Md, part');
    PoolOpens(s0, pool, part);
    RunOfOne(s0, Seen(DegradedPool(pool, part)));
    assert HasFailed(Md, DegradedArray(raid, part').parts[0]);
    RunOfOne(s1, Seen(DegradedArray(raid, part')));
    assert AllSeen([DegradedPool(pool, part)]) == [Seen(DegradedPool(pool, part))];
    assert AllSeen([DegradedArray(raid, part')]) == [Seen(DegradedArray(raid, part'))];
    assert s2.order == [pool, raid];
    assert AllScanned(s2.order, scans) == [Scanned(pool, scans(pool)), Scanned(raid, scans(raid))];
    RunOfTwo(s2, Scanned(pool, scans(pool)), Scanned(raid, scans(raid)));
  }

  lemma RunOfOne(s: System, op: Op)
    ensures Run(s, [op]) == Step(s, op)
  {
    RunSnoc(s, [], op);
    assert [] + [op] == [op];
  }
}
