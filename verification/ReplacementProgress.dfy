/**
 Which stored workflows can still be finished: all but those whose replace
 command failed.
 */
module ReplacementProgress {
  import opened Options
  import opened Orchestrator
  import opened ReplacementProtocol
  import opened ReplacementOutcomes
  import Strings

  /** Some further run removes the workflow. */
  ghost predicate CanFinish(s: System, key: string) {
    exists ops :: key !in Run(s, ops).active
  }

  lemma FinishLater(s: System, op: Op, key: string)
    requires CanFinish(Step(s, op), key)
    ensures CanFinish(s, key)
  {
    var ops :| key !in Run(Step(s, op), ops).active;
    RunSnoc(s, [], op);
    assert [] + [op] == [op];
    RunConcat(s, [op], ops);
    assert key !in Run(s, [op] + ops).active;
  }

  /** The monitor sees the pool once its rebuild is over. */
  function Healed(name: string): Op {
    Seen(RebuiltPool(name))
  }

  lemma ResilveringFinishes(s: System, key: string)
    requires OwnKeys(s.active) && key in s.active && s.active[key].state == Resilvering
    ensures CanFinish(s, key)
  {
    RunSnoc(s, [], Healed(key));
    assert [] + [Healed(key)] == [Healed(key)];
    assert key !in Run(s, [Healed(key)]).active;
  }

  lemma HeldFinishes(s: System, key: string)
    requires OwnKeys(s.active) && key in s.active && s.active[key].state == Validating
    ensures CanFinish(s, key)
  {
    StepKeepsOwnKeys(s, ApprovedBy(key, true));
    ResilveringFinishes(Approve(s, key, true), key);
    FinishLater(s, ApprovedBy(key, true), key);
  }

  /** A scan that finds one drive, on one path, of this size. */
  function OneDrive(serial: string, path: string, size: nat, ok: bool): Scan {
    Scan([Drive(serial, path, [])], {}, None, map[path := size], ok)
  }

  lemma FreshDriveIsTaken(s: System, key: string, serial: string, path: string, size: nat, ok: bool)
    requires OwnKeys(s.active) && key in s.active && s.active[key].state == WaitingNewDrive
    requires size >= s.active[key].failedCapacity && forall k | k in s.active :: s.active[k].failedSerial != serial
    ensures var s' := Check(s, key, OneDrive(serial, path, size, ok));
            && key in s'.active
            && s'.active[key].state == if !s.auto then Validating else if ok then Resilvering else Degraded
  {
    NewDriveEnds(s, key, OneDrive(serial, path, size, ok), 0);
  }

  lemma WaitingFinishes(s: System, key: string)
    requires OwnKeys(s.active) && key in s.active && s.active[key].state == WaitingNewDrive
    ensures CanFinish(s, key)
  {
    var failed := set k | k in s.active :: s.active[k].failedSerial;
    var serial := Strings.Fresh(failed);
    forall k | k in s.active ensures s.active[k].failedSerial != serial {
      assert s.active[k].failedSerial in failed;
    }
    var scan := OneDrive(serial, "/dev/sdx", s.active[key].failedCapacity, true);
    FreshDriveIsTaken(s, key, serial, "/dev/sdx", s.active[key].failedCapacity, true);
    StepKeepsOwnKeys(s, Scanned(key, scan));
    if s.auto {
      ResilveringFinishes(Check(s, key, scan), key);
    } else {
      HeldFinishes(Check(s, key, scan), key);
    }
    FinishLater(s, Scanned(key, scan), key);
  }

  /** At a step boundary a stored workflow can still be finished exactly when its
      replace command did not fail. */
  lemma FinishableExactly(s: System, key: string)
    requires Fits(s) && key in s.active
    ensures CanFinish(s, key) <==> s.active[key].state != Degraded
  {
    forall k | k in s.active ensures s.active[k].pool == k {
      assert PoolFits(s, k);
    }
    assert PoolFits(s, key);
    match s.active[key].state
    case WaitingNewDrive => WaitingFinishes(s, key);
    case Validating => HeldFinishes(s, key);
    case Resilvering => ResilveringFinishes(s, key);
    case Degraded =>
      forall ops ensures key in Run(s, ops).active {
        FailedReplaceIsFinal(s, ops, key);
      }
    case _ =>
  }

  /** So over every run a workflow is stuck exactly when its replace command failed. */
  lemma StuckExactly(auto: bool, enclosures: seq<string>, ops: seq<Op>, key: string)
    requires key in Run(Start(auto, enclosures), ops).active
    ensures var s := Run(Start(auto, enclosures), ops);
            !CanFinish(s, key) <==> s.active[key].state == Degraded
  {
    ProtocolFollowed(auto, enclosures, ops);
    FinishableExactly(Run(Start(auto, enclosures), ops), key);
  }

  /** A run that gets stuck: a degraded pool, a new drive, and a replace command
      that fails. */
  lemma FailedReplaceSticks(enclosures: seq<string>, name: string, part: Part, serial: string, path: string)
    requires part.state == "FAULTED" && part.serial != serial
    ensures var ops := [Seen(DegradedPool(name, part)), Scanned(name, OneDrive(serial, path, part.capacity, false))];
            var s := Run(Start(true, enclosures), ops);
            name in s.active && s.active[name].state == Degraded && !CanFinish(s, name)
  {
    var s0, scan := Start(true, enclosures), OneDrive(serial, path, part.capacity, false);
    var o1, o2 := Seen(DegradedPool(name, part)), Scanned(name, scan);
    RunOfTwo(s0, o1, o2);
    PoolOpens(s0, name, part);
    FreshDriveIsTaken(Open(s0, name, Zfs, part), name, serial, path, part.capacity, false);
    StuckExactly(true, enclosures, [o1, o2], name);
  }
}
