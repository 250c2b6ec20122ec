/**
 The drive replacement orchestrator (agent/storage_manager.py, ReplacementOrchestrator).

 Pool and array status, block-device scans, device sizes and the results of
 multipath creation and of the replace command come from the outside: they are
 parameters. Each handler is one atomic step, so approvals arrive between
 handlers. LED commands are assumed to work and the enclosure list to stay
 fixed. `log` is the ghost record of what was done.
 */
module Orchestrator {
  import opened Options

  datatype State =
    | Healthy | Degraded | LedOn | WaitingNewDrive | DualPathDetected | BuildingMultipath
    | Validating | Replacing | Resilvering | Complete

  datatype Slot = Slot(enclosure: string, index: nat)

  /** A vdev of a pool or a member of an array; `capacity` is 0 when unknown, and
      `slot` is where the enclosures report its serial. */
  datatype Part = Part(device: string, state: string, serial: string, capacity: nat, slot: Option<Slot>)

  datatype Kind = Zfs | Md

  datatype Observation = Observation(kind: Kind, name: string, state: string, rebuilding: bool, parts: seq<Part>)

  datatype Workflow = Workflow(
    pool: string, failedDevice: string, failedSerial: string, failedCapacity: nat, slotIndex: int, state: State,
    newDevice: string, newSerial: string, multipathDevice: string, replacementPath: string)

  /** A serial is listed with the first path it was seen on, and any others. */
  datatype Drive = Drive(serial: string, first: string, more: seq<string>)

  function Paths(d: Drive): seq<string> {
    [d.first] + d.more
  }

  /** What one workflow's check for a new drive finds: the serials on the block
      devices with their paths, those found to be healthy members, the device
      the multipath layer creates if it can, the sizes that can be read, and
      whether the replace command succeeds. */
  datatype Scan = Scan(drives: seq<Drive>, existing: set<string>, multipath: Option<string>, sizes: map<string, nat>,
                       replaceOk: bool)

  datatype Light = Fault | Locate
  datatype Lamp = Lamp(enclosure: string, index: nat, light: Light)
  datatype Tool = Zpool | Mdadm

  datatype Entry =
    | Led(lamp: Lamp, on: bool)
    | Opened(pool: string, kind: Kind, part: Part)
    | Accepted(pool: string, serial: string, paths: seq<string>)
    | MultipathFailed(pool: string)
    | Built(pool: string, device: string)
    | CapacityMismatch(pool: string, path: string, size: nat)
    | Validated(pool: string, path: string, size: nat)
    | Approved(pool: string)
    | Replaced(pool: string, tool: Tool, failed: string, path: string, ok: bool)
    | Completed(pool: string)

  /** `_active` is an insertion-ordered dictionary: a map and the order of its keys. */
  datatype System = System(auto: bool, enclosures: seq<string>, active: map<string, Workflow>, order: seq<string>,
                           log: seq<Entry>)

  function Start(auto: bool, enclosures: seq<string>): System {
    System(auto, enclosures, map[], [], [])
  }

  predicate IsDegraded(o: Observation) {
    match o.kind
    case Zfs => o.state in {"DEGRADED", "FAULTED", "UNAVAIL"}
    case Md => o.state in {"degraded", "inactive", "recovering"}
  }

  predicate HasFailed(kind: Kind, p: Part) {
    match kind
    case Zfs => p.state in {"FAULTED", "REMOVED", "UNAVAIL"}
    case Md => p.state == "faulty"
  }

  function FirstFailed(kind: Kind, parts: seq<Part>): (i: nat)
    ensures i <= |parts| && (i < |parts| ==> HasFailed(kind, parts[i]))
    ensures forall j | 0 <= j < i :: !HasFailed(kind, parts[j])
  {
    if parts == [] || HasFailed(kind, parts[0]) then 0 else 1 + FirstFailed(kind, parts[1..])
  }

  /** The slot that gets marked: only a known serial is looked up. */
  function SlotOf(p: Part): Option<Slot> {
    if p.serial != "" then p.slot else None
  }

  function IndexOf(slot: Option<Slot>): int {
    match slot case None => -1 case Some(sl) => sl.index
  }

  function Lights(enclosure: string, index: nat, on: bool): seq<Entry> {
    [Led(Lamp(enclosure, index, Fault), on), Led(Lamp(enclosure, index, Locate), on)]
  }

  function Darken(enclosures: seq<string>, index: int): seq<Entry> {
    if index < 0 || enclosures == [] then []
    else Darken(enclosures[..|enclosures| - 1], index) + Lights(enclosures[|enclosures| - 1], index, false)
  }

  /** Python's `"md" in name`. */
  predicate MentionsMd(name: string) {
    exists i | 0 <= i < |name| - 1 :: name[i] == 'm' && name[i + 1] == 'd'
  }

  function ToolFor(pool: string): Tool {
    if MentionsMd(pool) then Mdadm else Zpool
  }

  function Size(scan: Scan, path: string): nat {
    if path in scan.sizes then scan.sizes[path] else 0
  }

  predicate TooSmall(failedCapacity: nat, size: nat) {
    failedCapacity > 0 && size < failedCapacity
  }

  function Removed(order: seq<string>, key: string): seq<string> {
    if order == [] then []
    else Removed(order[..|order| - 1], key) + if order[|order| - 1] == key then [] else [order[|order| - 1]]
  }

  // ---------------------------------------------------------------------
  // Steps
  // ---------------------------------------------------------------------

  /** A workflow after a handler, and what the handler did. */
  datatype Outcome = Outcome(wf: Workflow, entries: seq<Entry>)

  function Put(s: System, out: Outcome): System {
    s.(active := s.active[out.wf.pool := out.wf], log := s.log + out.entries)
  }

  /** Of two outcomes of one handler the later workflow and all the entries remain. */
  lemma PutTwice(s: System, wf: Workflow, entries: seq<Entry>, out: Outcome)
    requires out.wf.pool == wf.pool
    ensures Put(Put(s, Outcome(wf, entries)), out) == Put(s, Outcome(out.wf, entries + out.entries))
  {
  }

  function MarkEntries(part: Part): seq<Entry> {
    match SlotOf(part)
    case None => []
    case Some(slot) => Lights(slot.enclosure, slot.index, true)
  }

  function NewWorkflow(name: string, part: Part): Workflow {
    Workflow(name, part.device, part.serial, part.capacity, IndexOf(SlotOf(part)), WaitingNewDrive, "", "", "", "")
  }

  function Open(s: System, name: string, kind: Kind, part: Part): System {
    s.(active := s.active[name := NewWorkflow(name, part)],
       order := s.order + [name],
       log := s.log + MarkEntries(part) + [Opened(name, kind, part)])
  }

  function Finish(s: System, wf: Workflow): System {
    s.(active := s.active - {wf.pool},
       order := Removed(s.order, wf.pool),
       log := s.log + Darken(s.enclosures, wf.slotIndex) + [Completed(wf.pool)])
  }

  /** One pool or array as the monitor sees it. */
  function Observe(s: System, o: Observation): System {
    if IsDegraded(o) then
      if o.name in s.active || FirstFailed(o.kind, o.parts) == |o.parts| then s
      else Open(s, o.name, o.kind, o.parts[FirstFailed(o.kind, o.parts)])
    else if o.name in s.active && s.active[o.name].state == Resilvering && !o.rebuilding then
      Finish(s, s.active[o.name])
    else s
  }

  function Replace(wf: Workflow, ok: bool): Outcome {
    Outcome(wf.(state := if ok then Resilvering else Degraded),
            [Replaced(wf.pool, ToolFor(wf.pool), wf.failedDevice, wf.replacementPath, ok)])
  }

  function Validate(auto: bool, wf: Workflow, path: string, scan: Scan): Outcome {
    var size := Size(scan, path);
    if TooSmall(wf.failedCapacity, size) then
      Outcome(wf.(state := WaitingNewDrive), [CapacityMismatch(wf.pool, path, size)])
    else
      var held := wf.(state := Validating, replacementPath := path);
      var done := if auto then Replace(held, scan.replaceOk) else Outcome(held, []);
      Outcome(done.wf, [Validated(wf.pool, path, size)] + done.entries)
  }

  function BuildMultipath(auto: bool, wf: Workflow, scan: Scan): Outcome {
    match scan.multipath
    case None => Outcome(wf.(state := WaitingNewDrive), [MultipathFailed(wf.pool)])
    case Some(device) =>
      var done := Validate(auto, wf.(multipathDevice := device), device, scan);
      Outcome(done.wf, [Built(wf.pool, device)] + done.entries)
  }

  function Accept(auto: bool, wf: Workflow, d: Drive, scan: Scan): Outcome {
    var taken := wf.(newDevice := d.first, newSerial := d.serial);
    var done := if |Paths(d)| >= 2 then BuildMultipath(auto, taken, scan) else Validate(auto, taken, d.first, scan);
    Outcome(done.wf, [Accepted(wf.pool, d.serial, Paths(d))] + done.entries)
  }

  /** Building does not depend on the state the workflow was left in. */
  lemma BuildIgnoresState(auto: bool, wf: Workflow, state: State, scan: Scan)
    ensures BuildMultipath(auto, wf.(state := state), scan) == BuildMultipath(auto, wf, scan)
  {
  }

  predicate IsCandidate(active: map<string, Workflow>, wf: Workflow, existing: set<string>, serial: string) {
    && serial != wf.failedSerial
    && (forall k | k in active && k != wf.pool :: active[k].failedSerial != serial)
    && serial !in existing
  }

  function FirstCandidate(active: map<string, Workflow>, wf: Workflow, existing: set<string>,
                          drives: seq<Drive>): (i: nat)
    ensures i <= |drives| && (i < |drives| ==> IsCandidate(active, wf, existing, drives[i].serial))
    ensures forall j | 0 <= j < i :: !IsCandidate(active, wf, existing, drives[j].serial)
  {
    if drives == [] || IsCandidate(active, wf, existing, drives[0].serial) then 0
    else 1 + FirstCandidate(active, wf, existing, drives[1..])
  }

  function Check(s: System, key: string, scan: Scan): System {
    if key !in s.active || s.active[key].state != WaitingNewDrive then s
    else
      var wf := s.active[key];
      var i := FirstCandidate(s.active, wf, scan.existing, scan.drives);
      if i == |scan.drives| then s else Put(s, Accept(s.auto, wf, scan.drives[i], scan))
  }

  function Approve(s: System, key: string, ok: bool): System {
    if key !in s.active || s.active[key].state != Validating then s
    else
      var done := Replace(s.active[key], ok);
      Put(s, Outcome(done.wf, [Approved(done.wf.pool)] + done.entries))
  }

  datatype Op = Seen(o: Observation) | Scanned(key: string, scan: Scan) | ApprovedBy(key: string, ok: bool)

  function Step(s: System, op: Op): (r: System)
    ensures r.auto == s.auto && r.enclosures == s.enclosures
  {
    match op
    case Seen(o) => Observe(s, o)
    case Scanned(key, scan) => Check(s, key, scan)
    case ApprovedBy(key, ok) => Approve(s, key, ok)
  }

  function Run(s: System, ops: seq<Op>): (r: System)
    ensures r.auto == s.auto && r.enclosures == s.enclosures
  {
    if ops == [] then s else Step(Run(s, ops[..|ops| - 1]), ops[|ops| - 1])
  }

  function AllSeen(seen: seq<Observation>): seq<Op> {
    seq(|seen|, i requires 0 <= i < |seen| => Seen(seen[i]))
  }

  function AllScanned(keys: seq<string>, scans: string -> Scan): seq<Op> {
    seq(|keys|, i requires 0 <= i < |keys| => Scanned(keys[i], scans(keys[i])))
  }

  /** One monitoring iteration: pools, then arrays, then every workflow in turn. */
  function Monitor(s: System, pools: seq<Observation>, arrays: seq<Observation>, scans: string -> Scan): System {
    var seen := Run(Run(s, AllSeen(pools)), AllSeen(arrays));
    Run(seen, AllScanned(seen.order, scans))
  }

  ghost predicate OwnKeys(active: map<string, Workflow>) {
    forall k | k in active :: active[k].pool == k
  }

  lemma StepKeepsOwnKeys(s: System, op: Op)
    requires OwnKeys(s.active)
    ensures OwnKeys(Step(s, op).active)
  {
  }

  // ---------------------------------------------------------------------
  // The orchestrator
  // ---------------------------------------------------------------------

  class ReplacementOrchestrator {
    const auto: bool
    const enclosures: seq<string>
    var active: map<string, Workflow>
    var order: seq<string>
    ghost var log: seq<Entry>

    ghost function Now(): System
      reads this
    {
      System(auto, enclosures, active, order, log)
    }

    constructor (auto: bool, enclosures: seq<string>)
      ensures Now() == Start(auto, enclosures)
    {
      this.auto, this.enclosures := auto, enclosures;
      active, order, log := map[], [], [];
    }

    method SetState(key: string, state: State)
      requires key in active
      modifies this`active
      ensures active == old(active)[key := old(active)[key].(state := state)]
    {
      active := active[key := active[key].(state := state)];
    }

    method IdentifyAndMark(wf: Workflow, slot: Option<Slot>) returns (marked: Workflow)
      modifies this`log
      ensures marked == wf.(slotIndex := if wf.failedSerial != "" && slot.Some? then slot.value.index else wf.slotIndex,
                            state := WaitingNewDrive)
      ensures log == old(log) + if wf.failedSerial != ""
              && slot.Some? then Lights(slot.value.enclosure, slot.value.index, true) else []
    {
      marked := wf;
      if wf.failedSerial != "" && slot.Some? {
        marked := marked.(slotIndex := slot.value.index);
        log := log + [Led(Lamp(slot.value.enclosure, slot.value.index, Fault), true)];
        log := log + [Led(Lamp(slot.value.enclosure, slot.value.index, Locate), true)];
      }
      marked := marked.(state := WaitingNewDrive);
    }

    method HandleDegraded(o: Observation)
      modifies this
      ensures Now() == if o.name in old(active) || FirstFailed(o.kind, o.parts) == |o.parts| then old(Now())
                       else Open(old(Now()), o.name, o.kind, o.parts[FirstFailed(o.kind, o.parts)])
    {
      if o.name in active {
        return;
      }
      var i := FirstFailed(o.kind, o.parts);
      if i < |o.parts| {
        var part := o.parts[i];
        var wf := Workflow(o.name, part.device, part.serial, part.capacity, -1, Degraded, "", "", "", "");
        wf := IdentifyAndMark(wf, part.slot);
        active := active[o.name := wf];
        order := order + [o.name];
        log := log + [Opened(o.name, o.kind, part)];
      }
    }

    method CompleteWorkflow(wf: Workflow)
      requires wf.pool in active
      modifies this
      ensures Now() == Finish(old(Now()), wf)
    {
      if wf.slotIndex >= 0 {
        for n := 0 to |enclosures|
          invariant log == old(log) + Darken(enclosures[..n], wf.slotIndex)
          invariant active == old(active) && order == old(order)
        {
          assert enclosures[..n + 1][..n] == enclosures[..n];
          log := log + [Led(Lamp(enclosures[n], wf.slotIndex, Fault), false)];
          log := log + [Led(Lamp(enclosures[n], wf.slotIndex, Locate), false)];
        }
        assert enclosures[..|enclosures|] == enclosures;
      }
      active := active - {wf.pool};
      order := Removed(order, wf.pool);
      log := log + [Completed(wf.pool)];
    }

    method ObserveOne(o: Observation)
      requires OwnKeys(active)
      modifies this
      ensures Now() == Observe(old(Now()), o)
    {
      if IsDegraded(o) {
        HandleDegraded(o);
      } else if o.name in active && active[o.name].state == Resilvering {
        var wf := active[o.name];
        if !o.rebuilding {
          CompleteWorkflow(wf);
        }
      }
    }

    method DoReplace(key: string, ok: bool)
      requires key in active && active[key].pool == key
      modifies this`active, this`log
      ensures Now() == Put(old(Now()), Replace(old(active)[key], ok))
    {
      SetState(key, Replacing);
      var wf := active[key];
      log := log + [Replaced(wf.pool, ToolFor(wf.pool), wf.failedDevice, wf.replacementPath, ok)];
      if !ok {
        SetState(key, Degraded);
      } else {
        SetState(key, Resilvering);
      }
    }

    method ValidateAndReplace(key: string, path: string, scan: Scan)
      requires key in active && active[key].pool == key
      modifies this`active, this`log
      ensures Now() == Put(old(Now()), Validate(auto, old(active)[key], path, scan))
    {
      SetState(key, Validating);
      var size := Size(scan, path);
      if active[key].failedCapacity > 0 && size < active[key].failedCapacity {
        SetState(key, WaitingNewDrive);
        log := log + [CapacityMismatch(key, path, size)];
        return;
      }
      active := active[key := active[key].(replacementPath := path)];
      log := log + [Validated(key, path, size)];
      if auto {
        DoReplace(key, scan.replaceOk);
        ghost var held := old(active)[key].(state := Validating, replacementPath := path);
        assert log == old(log) + ([Validated(key, path, size)] + Replace(held, scan.replaceOk).entries);
      }
    }

    method BuildMultipathAndReplace(key: string, scan: Scan)
      requires key in active && active[key].pool == key
      modifies this`active, this`log
      ensures Now() == Put(old(Now()), BuildMultipath(auto, old(active)[key], scan))
    {
      SetState(key, BuildingMultipath);
      match scan.multipath {
        case None =>
          SetState(key, WaitingNewDrive);
          log := log + [MultipathFailed(key)];
        case Some(device) =>
          active := active[key := active[key].(multipathDevice := device)];
          log := log + [Built(key, device)];
          ValidateAndReplace(key, device, scan);
          ghost var joined := old(active)[key].(multipathDevice := device);
          assert log == old(log) + ([Built(key, device)] + Validate(auto, joined, device, scan).entries);
      }
    }

    method RecordDrive(key: string, d: Drive)
      requires key in active && active[key].pool == key
      modifies this`active, this`log
      ensures var taken := old(active)[key].(newDevice := d.first, newSerial := d.serial);
              Now() == Put(old(Now()), Outcome(taken, [Accepted(key, d.serial, Paths(d))]))
    {
      active := active[key := active[key].(newSerial := d.serial, newDevice := d.first)];
      log := log + [Accepted(key, d.serial, Paths(d))];
    }

    method TakeDrive(key: string, d: Drive, scan: Scan)
      requires key in active && active[key].pool == key
      modifies this`active, this`log
      ensures Now() == Put(old(Now()), Accept(auto, old(active)[key], d, scan))
    {
      ghost var taken := active[key].(newDevice := d.first, newSerial := d.serial);
      ghost var accepted := [Accepted(key, d.serial, Paths(d))];
      RecordDrive(key, d);
      if |Paths(d)| >= 2 {
        SetState(key, DualPathDetected);
        ghost var marked := taken.(state := DualPathDetected);
        assert Now() == Put(old(Now()), Outcome(marked, accepted));
        BuildMultipathAndReplace(key, scan);
        BuildIgnoresState(auto, taken, DualPathDetected, scan);
        PutTwice(old(Now()), marked, accepted, BuildMultipath(auto, taken, scan));
      } else {
        ValidateAndReplace(key, d.first, scan);
        PutTwice(old(Now()), taken, accepted, Validate(auto, taken, d.first, scan));
      }
    }

    method CheckForNewDrive(key: string, scan: Scan)
      requires OwnKeys(active)
      modifies this
      ensures Now() == Check(old(Now()), key, scan)
    {
      if key !in active || active[key].state != WaitingNewDrive {
        return;
      }
      var i := FirstCandidate(active, active[key], scan.existing, scan.drives);
      if i < |scan.drives| {
        TakeDrive(key, scan.drives[i], scan);
      }
    }

    method ObserveAll(seen: seq<Observation>)
      requires OwnKeys(active)
      modifies this
      ensures Now() == Run(old(Now()), AllSeen(seen)) && OwnKeys(active)
    {
      ghost var ops := AllSeen(seen);
      for n := 0 to |seen|
        invariant Now() == Run(old(Now()), ops[..n]) && OwnKeys(active)
      {
        assert ops[..n + 1][..n] == ops[..n];
        StepKeepsOwnKeys(Now(), ops[n]);
        ObserveOne(seen[n]);
      }
      assert ops[..|seen|] == ops;
    }

    method MonitorStep(pools: seq<Observation>, arrays: seq<Observation>, scans: string -> Scan)
      requires OwnKeys(active)
      modifies this
      ensures Now() == Monitor(old(Now()), pools, arrays, scans) && OwnKeys(active)
    {
      ObserveAll(pools);
      ObserveAll(arrays);
      ghost var seen := Now();
      var keys := order;
      ghost var ops := AllScanned(keys, scans);
      for n := 0 to |keys|
        invariant Now() == Run(seen, ops[..n]) && OwnKeys(active)
      {
        assert ops[..n + 1][..n] == ops[..n];
        StepKeepsOwnKeys(Now(), ops[n]);
        CheckForNewDrive(keys[n], scans(keys[n]));
      }
      assert ops[..|keys|] == ops;
    }

    method ApproveReplacement(key: string, ok: bool) returns (accepted: bool)
      requires OwnKeys(active)
      modifies this
      ensures Now() == Approve(old(Now()), key, ok)
      ensures accepted <==> key in old(active) && old(active)[key].state == Validating
    {
      if key !in active || active[key].state != Validating {
        return false;
      }
      log := log + [Approved(key)];
      DoReplace(key, ok);
      assert log == old(log) + ([Approved(key)] + Replace(old(active)[key], ok).entries);
      accepted := true;
    }
  }
}
