/**
 The enclosure LEDs over a run of the orchestrator: none stays lit without a
 workflow it belongs to, and each workflow's stay lit as long as no other
 workflow with the same slot index completes.
 */
module ReplacementLeds {
  import opened Options
  import opened Orchestrator
  import opened ReplacementProtocol

  /** The lamps that are on, when every command works. */
  function Lit(log: seq<Entry>): set<Lamp> {
    if log == [] then {}
    else
      var before, e := Lit(log[..|log| - 1]), log[|log| - 1];
      if !e.Led? then before else if e.on then before + {e.lamp} else before - {e.lamp}
  }

  /** Slots are found by going through the listed enclosures. */
  predicate ListedSlots(enclosures: seq<string>, op: Op) {
    op.Seen? ==> forall p | p in op.o.parts && p.slot.Some? :: p.slot.value.enclosure in enclosures
  }

  predicate AllListed(enclosures: seq<string>, ops: seq<Op>) {
    forall n | 0 <= n < |ops| :: ListedSlots(enclosures, ops[n])
  }

  lemma LitOne(log: seq<Entry>, e: Entry)
    ensures Lit(log + [e]) == if !e.Led? then Lit(log) else if e.on then Lit(log) + {e.lamp} else Lit(log) - {e.lamp}
  {
    assert (log + [e])[..|log|] == log;
  }

  lemma {:induction false} LitWithoutLeds(log: seq<Entry>, more: seq<Entry>)
    requires forall e | e in more :: !e.Led?
    ensures Lit(log + more) == Lit(log)
  {
    if more == [] {
      assert log + more == log;
    } else {
      var init, last := more[..|more| - 1], more[|more| - 1];
      assert log + more == log + init + [last];
      LitWithoutLeds(log, init);
      LitOne(log + init, last);
      assert last in more;
    }
  }

  predicate AtSlot(lamp: Lamp, enclosure: string, index: int) {
    lamp.enclosure == enclosure && lamp.index == index
  }

  lemma LitAfterLights(log: seq<Entry>, enclosure: string, index: nat, on: bool, lamp: Lamp)
    ensures lamp in Lit(log + Lights(enclosure, index, on)) <==> if AtSlot(lamp, enclosure, index) then on
            else lamp in Lit(log)
  {
    var l := Lights(enclosure, index, on);
    LitOne(log, l[0]);
    LitOne(log + [l[0]], l[1]);
    assert log + l == log + [l[0]] + [l[1]];
    assert lamp.light == Fault || lamp.light == Locate;
    if AtSlot(lamp, enclosure, index) {
      assert lamp == Lamp(enclosure, index, lamp.light);
    }
  }

  /** Darkening clears the index in every enclosure of the list, and nothing else. */
  lemma {:induction false} LitAfterDarken(log: seq<Entry>, enclosures: seq<string>, index: int, lamp: Lamp)
    ensures lamp in Lit(log + Darken(enclosures, index)) <==>
            lamp in Lit(log) && !(lamp.index == index && lamp.enclosure in enclosures)
  {
    if index < 0 || enclosures == [] {
      assert log + Darken(enclosures, index) == log;
    } else {
      var init, last := enclosures[..|enclosures| - 1], enclosures[|enclosures| - 1];
      LitAfterDarken(log, init, index, lamp);
      LitAfterLights(log + Darken(init, index), last, index, false, lamp);
      assert log + Darken(enclosures, index) == log + Darken(init, index) + Lights(last, index, false);
      assert enclosures == init + [last];
    }
  }

  // ---------------------------------------------------------------------
  // Which lamps belong to which workflow
  // ---------------------------------------------------------------------

  /** The slot that was marked when the pool's workflow was opened. */
  function MarkedSlot(s: System, pool: string): Option<Slot> {
    var phase := Judge(s.auto, s.log, pool);
    if phase == Idle || phase == Broken then None else SlotOf(phase.part)
  }

  predicate BelongsTo(s: System, lamp: Lamp, pool: string) {
    pool in s.active && match MarkedSlot(s, pool) case None => false case Some(slot) => AtSlot(lamp, slot.enclosure,
        slot.index)
  }

  /** The lamp is in a listed enclosure, at the slot index of an active workflow. */
  predicate Owned(s: System, lamp: Lamp) {
    lamp.enclosure in s.enclosures && exists k :: k in s.active && s.active[k].slotIndex == lamp.index
  }

  predicate NoLeak(s: System) {
    forall lamp | lamp in Lit(s.log) :: Owned(s, lamp)
  }

  predicate DistinctSlots(active: map<string, Workflow>) {
    forall j, k | j in active && k in active && j != k && active[j].slotIndex >= 0 ::
        active[j].slotIndex != active[k].slotIndex
  }

  /** Exactly the lamps of the active workflows' marked slots are lit. */
  ghost predicate ExactlyMarked(s: System) {
    forall lamp :: lamp in Lit(s.log) <==> exists k :: BelongsTo(s, lamp, k)
  }

  ghost predicate MarkedAreListed(s: System) {
    forall k | k in s.active && MarkedSlot(s, k).Some? :: MarkedSlot(s, k).value.enclosure in s.enclosures
  }

  lemma MarkedIndex(s: System, k: string)
    requires Fits(s) && k in s.active
    ensures s.active[k].slotIndex == IndexOf(MarkedSlot(s, k))
  {
    assert PoolFits(s, k);
  }

  // ---------------------------------------------------------------------
  // Steps that touch no lamp
  // ---------------------------------------------------------------------

  /** The step changed one workflow's progress only. */
  predicate Dark(s: System, s': System) {
    && s'.auto == s.auto && s'.enclosures == s.enclosures && s'.active.Keys == s.active.Keys
    && (forall k | k in s.active :: s'.active[k].slotIndex == s.active[k].slotIndex)
    && Lit(s'.log) == Lit(s.log)
  }

  lemma PutIsDark(s: System, pool: string, out: Outcome)
    requires pool in s.active && out.wf.pool == pool && out.wf.slotIndex == s.active[pool].slotIndex
    requires forall e | e in out.entries :: !e.Led?
    ensures Dark(s, Put(s, out))
  {
    LitWithoutLeds(s.log, out.entries);
  }

  lemma CheckIsDark(s: System, key: string, scan: Scan)
    requires OwnKeys(s.active)
    ensures Dark(s, Check(s, key, scan))
  {
    if key in s.active && s.active[key].state == WaitingNewDrive {
      var wf := s.active[key];
      var i := FirstCandidate(s.active, wf, scan.existing, scan.drives);
      if i < |scan.drives| {
        PutIsDark(s, key, Accept(s.auto, wf, scan.drives[i], scan));
      }
    }
  }

  lemma ApproveIsDark(s: System, key: string, ok: bool)
    requires OwnKeys(s.active)
    ensures Dark(s, Approve(s, key, ok))
  {
    if key in s.active && s.active[key].state == Validating {
      var done := Replace(s.active[key], ok);
      PutIsDark(s, key, Outcome(done.wf, [Approved(done.wf.pool)] + done.entries));
    }
  }

  // ---------------------------------------------------------------------
  // No leak
  // ---------------------------------------------------------------------

  lemma OpenLeaksNothing(s: System, name: string, kind: Kind, part: Part)
    requires NoLeak(s) && name !in s.active && (part.slot.Some? ==> part.slot.value.enclosure in s.enclosures)
    ensures NoLeak(Open(s, name, kind, part))
  {
    var s' := Open(s, name, kind, part);
    LitOne(s.log + MarkEntries(part), Opened(name, kind, part));
    forall lamp | lamp in Lit(s'.log) ensures Owned(s', lamp) {
      match SlotOf(part) {
        case None => assert s.log + MarkEntries(part) == s.log;
        case Some(slot) => LitAfterLights(s.log, slot.enclosure, slot.index, true, lamp);
      }
      if lamp in Lit(s.log) {
        var k :| k in s.active && s.active[k].slotIndex == lamp.index;
        assert k in s'.active && s'.active[k].slotIndex == lamp.index;
      } else {
        assert name in s'.active && s'.active[name].slotIndex == lamp.index;
      }
    }
  }

  lemma FinishLeaksNothing(s: System, key: string)
    requires NoLeak(s) && key in s.active && s.active[key].pool == key
    ensures NoLeak(Finish(s, s.active[key]))
  {
    var wf := s.active[key];
    var s' := Finish(s, wf);
    LitOne(s.log + Darken(s.enclosures, wf.slotIndex), Completed(key));
    forall lamp | lamp in Lit(s'.log) ensures Owned(s', lamp) {
      LitAfterDarken(s.log, s.enclosures, wf.slotIndex, lamp);
      var k :| k in s.active && s.active[k].slotIndex == lamp.index;
      assert k in s'.active && s'.active[k].slotIndex == lamp.index;
    }
  }

  lemma DarkLeaksNothing(s: System, s': System)
    requires NoLeak(s) && Dark(s, s')
    ensures NoLeak(s')
  {
    forall lamp | lamp in Lit(s'.log) ensures Owned(s', lamp) {
      var k :| k in s.active && s.active[k].slotIndex == lamp.index;
      assert k in s'.active && s'.active[k].slotIndex == lamp.index;
    }
  }

  lemma StepLeaksNothing(s: System, op: Op)
    requires NoLeak(s) && OwnKeys(s.active) && ListedSlots(s.enclosures, op)
    ensures NoLeak(Step(s, op))
  {
    match op
    case Seen(o) =>
      var i := FirstFailed(o.kind, o.parts);
      if IsDegraded(o) {
        if o.name !in s.active && i < |o.parts| { OpenLeaksNothing(s, o.name, o.kind, o.parts[i]); }
      } else if Observe(s, o) != s {
        FinishLeaksNothing(s, o.name);
      }
    case Scanned(key, scan) =>
      CheckIsDark(s, key, scan);
      DarkLeaksNothing(s, Check(s, key, scan));
    case ApprovedBy(key, ok) =>
      ApproveIsDark(s, key, ok);
      DarkLeaksNothing(s, Approve(s, key, ok));
  }

  /** Over every run each lit fault or locate LED is at the slot index of some
      active workflow, in a listed enclosure. */
  lemma {:induction false} NoLedLeaks(auto: bool, enclosures: seq<string>, ops: seq<Op>)
    requires AllListed(enclosures, ops)
    ensures NoLeak(Run(Start(auto, enclosures), ops))
  {
    if ops == [] {
    } else {
      var init := ops[..|ops| - 1];
      NoLedLeaks(auto, enclosures, init);
      RunKeepsOwnKeys(Start(auto, enclosures), init);
      StepLeaksNothing(Run(Start(auto, enclosures), init), ops[|ops| - 1]);
    }
  }

  // ---------------------------------------------------------------------
  // Exactly the marked slots
  // ---------------------------------------------------------------------

  /** Only an opening changes which part a pool's phase is about. */
  lemma {:induction false} JudgeKeepsPart(auto: bool, log: seq<Entry>, more: seq<Entry>, pool: string)
    requires forall e | e in more && Concerns(e, pool) :: !e.Opened? && !e.Completed?
    requires Judge(auto, log, pool) !in {Idle, Broken} && Judge(auto, log + more, pool) != Broken
    ensures Judge(auto, log + more, pool) != Idle && Judge(auto, log + more, pool).part == Judge(auto, log, pool).part
  {
    if more == [] {
      assert log + more == log;
    } else {
      var init, last := more[..|more| - 1], more[|more| - 1];
      assert log + more == log + init + [last];
      BrokenStays(auto, log + more, pool, |log + init|);
      assert (log + more)[..|log + init|] == log + init;
      JudgeKeepsPart(auto, log, init, pool);
      JudgeOne(auto, log + init, last, pool);
      assert last in more;
    }
  }

  /** An outcome of a handler that neither opens nor completes. */
  lemma PutKeepsMarks(s: System, pool: string, out: Outcome, k: string)
    requires Fits(s) && Fits(Put(s, out)) && pool in s.active && out.wf.pool == pool && k in s.active
    requires forall e | e in out.entries :: !e.Opened? && !e.Completed?
    ensures MarkedSlot(Put(s, out), k) == MarkedSlot(s, k)
  {
    assert PoolFits(s, k) && PoolFits(Put(s, out), k);
    JudgeKeepsPart(s.auto, s.log, out.entries, k);
  }

  lemma CheckKeepsMarks(s: System, key: string, scan: Scan, k: string)
    requires Fits(s) && OwnKeys(s.active) && k in s.active
    ensures MarkedSlot(Check(s, key, scan), k) == MarkedSlot(s, k)
  {
    CheckFits(s, key, scan);
    if key in s.active && s.active[key].state == WaitingNewDrive {
      var wf := s.active[key];
      var i := FirstCandidate(s.active, wf, scan.existing, scan.drives);
      if i < |scan.drives| {
        PutKeepsMarks(s, key, Accept(s.auto, wf, scan.drives[i], scan), k);
      }
    }
  }

  lemma ApproveKeepsMarks(s: System, key: string, ok: bool, k: string)
    requires Fits(s) && OwnKeys(s.active) && k in s.active
    ensures MarkedSlot(Approve(s, key, ok), k) == MarkedSlot(s, k)
  {
    ApproveFits(s, key, ok);
    if key in s.active && s.active[key].state == Validating {
      var done := Replace(s.active[key], ok);
      PutKeepsMarks(s, key, Outcome(done.wf, [Approved(done.wf.pool)] + done.entries), k);
    }
  }

  /** Marked slots are in listed enclosures, and exactly they are lit. */
  ghost predicate Lamps(s: System) {
    MarkedAreListed(s) && ExactlyMarked(s)
  }

  lemma DarkKeepsLamps(s: System, s': System)
    requires Lamps(s) && Dark(s, s') && forall k | k in s.active :: MarkedSlot(s', k) == MarkedSlot(s, k)
    ensures Lamps(s')
  {
    forall lamp ensures lamp in Lit(s'.log) <==> exists k :: BelongsTo(s', lamp, k) {
      if k :| BelongsTo(s, lamp, k) { assert BelongsTo(s', lamp, k); }
      if k :| BelongsTo(s', lamp, k) { assert BelongsTo(s, lamp, k); }
    }
  }

  lemma OpenMarks(s: System, name: string, kind: Kind, part: Part, k: string)
    requires Fits(s) && name !in s.active && (k in s.active || k == name)
    ensures MarkedSlot(Open(s, name, kind, part), k) == if k == name then SlotOf(part) else MarkedSlot(s, k)
  {
    assert PoolFits(s, name);
    JudgeOthers(s.auto, s.log, MarkEntries(part), k);
    JudgeOne(s.auto, s.log + MarkEntries(part), Opened(name, kind, part), k);
  }

  lemma OpenLights(s: System, name: string, kind: Kind, part: Part, lamp: Lamp)
    ensures lamp in Lit(Open(s, name, kind, part).log) <==>
            lamp in Lit(s.log) || (SlotOf(part).Some?
                && AtSlot(lamp, SlotOf(part).value.enclosure, SlotOf(part).value.index))
  {
    LitOne(s.log + MarkEntries(part), Opened(name, kind, part));
    match SlotOf(part) {
      case None => assert s.log + MarkEntries(part) == s.log;
      case Some(slot) => LitAfterLights(s.log, slot.enclosure, slot.index, true, lamp);
    }
  }

  /** Opening a workflow lights both lamps of the failed part's slot, if its serial
      is known and an enclosure lists it, and no other. */
  lemma OpeningLightsSlot(s: System, name: string, kind: Kind, part: Part, lamp: Lamp)
    ensures lamp in Lit(Open(s, name, kind, part).log) <==>
            lamp in Lit(s.log) || (part.serial != "" && part.slot == Some(Slot(lamp.enclosure, lamp.index)))
  {
    OpenLights(s, name, kind, part, lamp);
  }

  lemma OpenKeepsLamps(s: System, name: string, kind: Kind, part: Part)
    requires Fits(s) && Lamps(s) && name !in s.active && (part.slot.Some? ==> part.slot.value.enclosure in s.enclosures)
    ensures Lamps(Open(s, name, kind, part))
  {
    var s' := Open(s, name, kind, part);
    forall k | k in s'.active ensures MarkedSlot(s', k) == if k == name then SlotOf(part) else MarkedSlot(s, k) {
      OpenMarks(s, name, kind, part, k);
    }
    forall lamp ensures lamp in Lit(s'.log) <==> exists k :: BelongsTo(s', lamp, k) {
      OpenLights(s, name, kind, part, lamp);
      if lamp in Lit(s.log) {
        var k :| BelongsTo(s, lamp, k);
        assert BelongsTo(s', lamp, k);
      }
      if k :| BelongsTo(s', lamp, k) {
        if k != name { assert BelongsTo(s, lamp, k); }
      } else {
        assert !BelongsTo(s', lamp, name);
      }
    }
  }

  lemma FinishMarks(s: System, key: string, k: string)
    requires Fits(s) && key in s.active && s.active[key].pool == key && k in s.active && k != key
    ensures MarkedSlot(Finish(s, s.active[key]), k) == MarkedSlot(s, k)
  {
    var dark := Darken(s.enclosures, s.active[key].slotIndex);
    DarkenIsLeds(s.enclosures, s.active[key].slotIndex);
    JudgeOthers(s.auto, s.log, dark, k);
    JudgeOne(s.auto, s.log + dark, Completed(key), k);
  }

  lemma FinishLights(s: System, key: string, lamp: Lamp)
    requires key in s.active && s.active[key].pool == key
    ensures lamp in Lit(Finish(s, s.active[key]).log) <==>
            lamp in Lit(s.log) && !(lamp.index == s.active[key].slotIndex && lamp.enclosure in s.enclosures)
  {
    var wf := s.active[key];
    LitOne(s.log + Darken(s.enclosures, wf.slotIndex), Completed(key));
    LitAfterDarken(s.log, s.enclosures, wf.slotIndex, lamp);
  }

  /** Completing one workflow leaves another's LEDs lit exactly when the two slot
      indices differ: the command goes to that index in every enclosure. */
  lemma FinishSparesOthers(s: System, key: string, other: string, lamp: Lamp)
    requires Fits(s) && Lamps(s) && key in s.active && other != key && BelongsTo(s, lamp, other)
    ensures lamp in Lit(Finish(s, s.active[key]).log) <==> s.active[other].slotIndex != s.active[key].slotIndex
  {
    assert PoolFits(s, key);
    MarkedIndex(s, other);
    FinishLights(s, key, lamp);
  }

  lemma FinishKeepsLamps(s: System, key: string)
    requires Fits(s) && Lamps(s) && DistinctSlots(s.active) && key in s.active
    ensures Lamps(Finish(s, s.active[key]))
  {
    assert PoolFits(s, key);
    var s' := Finish(s, s.active[key]);
    forall k | k in s'.active ensures MarkedSlot(s', k) == MarkedSlot(s, k) {
      FinishMarks(s, key, k);
    }
    forall lamp ensures lamp in Lit(s'.log) <==> exists k :: BelongsTo(s', lamp, k) {
      FinishLights(s, key, lamp);
      if k :| BelongsTo(s', lamp, k) {
        assert BelongsTo(s, lamp, k);
        FinishSparesOthers(s, key, k, lamp);
        MarkedIndex(s, k);
      } else if lamp in Lit(s.log) {
        var k :| BelongsTo(s, lamp, k);
        assert k == key || BelongsTo(s', lamp, k);
        MarkedIndex(s, key);
      }
    }
  }

  lemma StepKeepsLamps(s: System, op: Op)
    requires Fits(s) && OwnKeys(s.active) && Lamps(s) && DistinctSlots(s.active)
    requires ListedSlots(s.enclosures, op)
    ensures Lamps(Step(s, op))
  {
    match op
    case Seen(o) =>
      var i := FirstFailed(o.kind, o.parts);
      if IsDegraded(o) {
        if o.name !in s.active && i < |o.parts| { OpenKeepsLamps(s, o.name, o.kind, o.parts[i]); }
      } else if Observe(s, o) != s {
        FinishKeepsLamps(s, o.name);
      }
    case Scanned(key, scan) =>
      CheckIsDark(s, key, scan);
      forall k | k in s.active ensures MarkedSlot(Check(s, key, scan), k) == MarkedSlot(s,
          k) { CheckKeepsMarks(s, key, scan, k); }
      DarkKeepsLamps(s, Check(s, key, scan));
    case ApprovedBy(key, ok) =>
      ApproveIsDark(s, key, ok);
      forall k | k in s.active ensures MarkedSlot(Approve(s, key, ok), k) == MarkedSlot(s,
          k) { ApproveKeepsMarks(s, key, ok, k); }
      DarkKeepsLamps(s, Approve(s, key, ok));
  }

  /** As long as no two active workflows share a slot index, exactly the marked
      slots of the active workflows are lit. */
  lemma {:induction false} ExactlyMarkedAreLit(auto: bool, enclosures: seq<string>, ops: seq<Op>)
    requires AllListed(enclosures, ops)
    requires forall n | 0 <= n < |ops| :: DistinctSlots(Run(Start(auto, enclosures), ops[..n]).active)
    ensures Lamps(Run(Start(auto, enclosures), ops))
  {
    var start := Start(auto, enclosures);
    if ops != [] {
      var init := ops[..|ops| - 1];
      forall n | 0 <= n < |init| ensures DistinctSlots(Run(start, init[..n]).active) {
        assert init[..n] == ops[..n];
      }
      ExactlyMarkedAreLit(auto, enclosures, init);
      RunKeepsOwnKeys(start, init);
      ProtocolFollowed(auto, enclosures, init);
      StepKeepsLamps(Run(start, init), ops[|ops| - 1]);
    }
  }

  lemma FinishAfterUse(s: System, name: string, drive: Drive)
    requires s.auto && name in s.active && s.active[name].pool == name && s.active[name].state == WaitingNewDrive
    requires s.active[name].failedCapacity == 0 && drive.more == []
    requires forall k | k in s.active :: s.active[k].failedSerial != drive.serial
    ensures var s' := Check(s, name, OnlyDrive(drive));
            && name in s'.active && s'.active[name].pool == name
               && s'.active[name].slotIndex == s.active[name].slotIndex
            && Observe(s', RebuiltPool(name)) == Finish(s', s'.active[name])
  {
    assert IsCandidate(s.active, s.active[name], {}, OnlyDrive(drive).drives[0].serial);
  }

  lemma RepairDarkens(s1: System, tank: string, vault: string, part': Part, drive: Drive, slot: Slot, light: Light)
    requires s1.auto && OwnKeys(s1.active) && s1.active.Keys == {tank} && tank != vault
             && slot.enclosure in s1.enclosures
    requires s1.active[tank].state == WaitingNewDrive && s1.active[tank].failedCapacity == 0
    requires s1.active[tank].slotIndex == slot.index && SlotOf(part') == Some(slot)
    requires s1.active[tank].failedSerial != drive.serial && part'.serial != drive.serial && drive.more == []
    ensures var s2 := Open(s1, vault, Zfs, part');
            var s4 := Observe(Check(s2, tank, OnlyDrive(drive)), RebuiltPool(tank));
            var lamp := Lamp(slot.enclosure, slot.index, light);
            vault in s4.active && s4.active[vault] == s2.active[vault] && lamp in Lit(s2.log) && lamp !in Lit(s4.log)
  {
    var s2, lamp := Open(s1, vault, Zfs, part'), Lamp(slot.enclosure, slot.index, light);
    OpenLights(s1, vault, Zfs, part', lamp);
    OnlyDriveIsUsed(s2, tank, drive);
    FinishAfterUse(s2, tank, drive);
    FinishLights(Check(s2, tank, OnlyDrive(drive)), tank, lamp);
  }

  lemma TwoPoolsOpen(enclosures: seq<string>, tank: string, vault: string, part: Part, part': Part)
    requires tank != vault && part.state == "FAULTED" && part'.state == "FAULTED"
    ensures Run(Start(true, enclosures), [Seen(DegradedPool(tank, part)), Seen(DegradedPool(vault, part'))])
            == Open(Open(Start(true, enclosures), tank, Zfs, part), vault, Zfs, part')
  {
    var s0 := Start(true, enclosures);
    RunOfTwo(s0, Seen(DegradedPool(tank, part)), Seen(DegradedPool(vault, part')));
    PoolOpens(s0, tank, part);
    PoolOpens(Open(s0, tank, Zfs, part), vault, part');
  }

  /** Two pools whose failed drives sit at the same index of two enclosures, and a
      drive that repairs the first: while the second still waits for its own, its
      LEDs go dark with the first's. */
  lemma SharedIndexGoesDark(enclosures: seq<string>, tank: string, vault: string, part: Part, part': Part, drive: Drive,
                            index: nat, light: Light)
    requires tank != vault && |enclosures| >= 2 && enclosures[0] != enclosures[1]
    requires part.state == "FAULTED" && part.serial != "" && part.slot == Some(Slot(enclosures[0], index))
    requires part'.state == "FAULTED" && part'.serial != "" && part'.slot == Some(Slot(enclosures[1], index))
    requires part.capacity == 0 && part.serial != drive.serial && part'.serial != drive.serial && drive.more == []
    ensures var seen := [Seen(DegradedPool(tank, part)), Seen(DegradedPool(vault, part'))];
            var repaired := [Scanned(tank, OnlyDrive(drive)), Seen(RebuiltPool(tank))];
            var before := Run(Start(true, enclosures), seen);
            var after := Run(Start(true, enclosures), seen + repaired);
            var lamp := Lamp(enclosures[1], index, light);
            && vault in after.active && vault in before.active && after.active[vault] == before.active[vault]
            && lamp in Lit(before.log) && lamp !in Lit(after.log)
  {
    var s0 := Start(true, enclosures);
    var seen := [Seen(DegradedPool(tank, part)), Seen(DegradedPool(vault, part'))];
    var repaired := [Scanned(tank, OnlyDrive(drive)), Seen(RebuiltPool(tank))];
    TwoPoolsOpen(enclosures, tank, vault, part, part');
    RunConcat(s0, seen, repaired);
    RunOfTwo(Run(s0, seen), repaired[0], repaired[1]);
    RepairDarkens(Open(s0, tank, Zfs, part), tank, vault, part', drive, part'.slot.value, light);
  }
}
