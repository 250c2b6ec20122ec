/**
 The agent's differential keyboard injectors (agent/ozma_desktop_agent.py).

 A report is an 8-byte USB HID boot keyboard report (Appendix B.1 of USB HID
 1.11): a modifier byte, a reserved byte and six key codes. The injectors only
 send what changed since the previous report. Python iterates over a set
 difference in an unspecified order; so the batch of events one report causes
 is a relation here, and the methods pick an arbitrary order.
 */
module HidInjector {
  import opened Options
  import opened HidTables
  import opened IntSets

  type Byte = b: int | 0 <= b < 256
  type Report = r: seq<Byte> | |r| == 8 witness [0, 0, 0, 0, 0, 0, 0, 0]

  datatype KeyEvent = KeyEvent(vk: int, down: bool)

  function Modifier(r: Report): Byte { r[0] }

  function KeysOf(r: Report): set<int> {
    set i | 2 <= i < 8 && r[i] != 0 :: r[i]
  }

  // ---------------------------------------------------------------------
  // Replaying events
  // ---------------------------------------------------------------------

  function Apply(held: set<int>, e: KeyEvent): set<int> {
    if e.down then held + {e.vk} else held - {e.vk}
  }

  /** The keys the operating system holds down after a run of events. */
  function Replay(held: set<int>, events: seq<KeyEvent>): set<int> {
    if events == [] then held
    else Apply(Replay(held, events[..|events| - 1]), events[|events| - 1])
  }

  lemma {:induction false} ReplayConcat(held: set<int>, a: seq<KeyEvent>, b: seq<KeyEvent>)
    ensures Replay(held, a + b) == Replay(Replay(held, a), b)
  {
    if b == [] {
      assert a + b == a;
    } else {
      assert (a + b)[..|a + b| - 1] == a + b[..|b| - 1];
      ReplayConcat(held, a, b[..|b| - 1]);
    }
  }

  ghost predicate Uniform(events: seq<KeyEvent>, down: bool) {
    forall e | e in events :: e.down == down
  }

  ghost function Touched(events: seq<KeyEvent>): set<int> {
    set e | e in events :: e.vk
  }

  lemma {:induction false} ReplayUniform(held: set<int>, events: seq<KeyEvent>, down: bool)
    requires Uniform(events, down)
    ensures Replay(held, events) == if down then held + Touched(events) else held - Touched(events)
  {
    if events == [] {
    } else {
      var init := events[..|events| - 1];
      ReplayUniform(held, init, down);
      assert events == init + [events[|events| - 1]];
      assert Touched(events) == Touched(init) + {events[|events| - 1].vk};
    }
  }

  // ---------------------------------------------------------------------
  // Windows
  // ---------------------------------------------------------------------

  /** `MOD_VK`: each modifier bit with its virtual key. */
  const MOD_VK: seq<(int, int)> := [
    (0x01, 0xA2), (0x02, 0xA0), (0x04, 0xA4), (0x08, 0x5B),
    (0x10, 0xA3), (0x20, 0xA1), (0x40, 0xA5), (0x80, 0x5C)]

  /** `modifier & bit`, for a single bit. */
  predicate HasBit(modifier: int, bit: int)
    requires bit > 0
  {
    modifier / bit % 2 == 1
  }

  /** Down (or up) events for the modifier bits that are (or are not) set, in table order. */
  function ModifierEvents(modifier: int, down: bool, n: nat): seq<KeyEvent>
    requires n <= 8
  {
    if n == 0 then []
    else ModifierEvents(modifier, down, n - 1) +
         if HasBit(modifier, MOD_VK[n - 1].0) == down then [KeyEvent(MOD_VK[n - 1].1, down)] else []
  }

  ghost function ModifierVks(): set<int> {
    {0xA2, 0xA0, 0xA4, 0x5B, 0xA3, 0xA1, 0xA5, 0x5C}
  }

  ghost function HeldModifiers(modifier: int): set<int> {
    set i | 0 <= i < 8 && HasBit(modifier, MOD_VK[i].0) :: MOD_VK[i].1
  }

  ghost function VksOf(keys: set<int>): set<int> {
    set k | k in keys && HidToVk(k) != 0 :: HidToVk(k)
  }

  /** Events for keys taken in the given order. */
  function VkEvents(order: seq<int>, down: bool): seq<KeyEvent> {
    if order == [] then []
    else VkEvents(order[..|order| - 1], down) +
         if HidToVk(order[|order| - 1]) != 0 then [KeyEvent(HidToVk(order[|order| - 1]), down)] else []
  }

  /** The order visits every element of the set once. */
  ghost predicate Enumerates(order: seq<int>, s: set<int>) {
    && (forall k :: k in order <==> k in s)
    && forall i, j | 0 <= i < j < |order| :: order[i] != order[j]
  }

  /** What one report may send, given the keys of the previous one. */
  ghost predicate WindowsBatch(prev: set<int>, r: Report, batch: seq<KeyEvent>) {
    exists released, pressed ::
      && Enumerates(released, prev - KeysOf(r))
      && Enumerates(pressed, KeysOf(r) - prev)
      && batch == ModifierEvents(Modifier(r), true, 8) + VkEvents(released, false)
                  + VkEvents(pressed, true) + ModifierEvents(Modifier(r), false, 8)
  }

  class HidInjectorWindows {
    var prevKeys: set<int>
    ghost var reports: seq<Report>   // injected so far
    ghost var sent: seq<KeyEvent>    // handed to SendInput so far

    /** The events sent are a possible outcome of the reports injected. */
    ghost predicate Valid()
      reads this
    {
      prevKeys == LastKeys(reports) && WindowsSession(reports, sent)
    }

    constructor ()
      ensures Valid() && reports == [] && sent == []
    {
      prevKeys := {};
      reports, sent := [], [];
    }

    method InjectKeyboard(report: Report)
      requires Valid()
      modifies this
      ensures Valid() && reports == old(reports) + [report]
      ensures old(sent) <= sent && WindowsBatch(old(prevKeys), report, sent[|old(sent)|..])
      ensures prevKeys == KeysOf(report)
      ensures Replay({}, sent) == VksOf(KeysOf(report)) + HeldModifiers(Modifier(report))
    {
      var modifier := report[0];
      var currentKeys := set i | 2 <= i < 8 && report[i] != 0 :: report[i];
      var inputs: seq<KeyEvent> := [];
      for n := 0 to 8
        invariant inputs == ModifierEvents(modifier, true, n)
      {
        if HasBit(modifier, MOD_VK[n].0) {
          inputs := inputs + [KeyEvent(MOD_VK[n].1, true)];
        }
      }
      ghost var released: seq<int>;
      inputs, released := AppendAll(inputs, prevKeys - currentKeys, false);
      ghost var pressed: seq<int>;
      inputs, pressed := AppendAll(inputs, currentKeys - prevKeys, true);
      ghost var soFar := inputs;
      for n := 0 to 8
        invariant inputs == soFar + ModifierEvents(modifier, false, n)
      {
        if !HasBit(modifier, MOD_VK[n].0) {
          inputs := inputs + [KeyEvent(MOD_VK[n].1, false)];
        }
      }
      sent := sent + inputs;
      prevKeys := currentKeys;
      reports := reports + [report];
      assert WindowsBatch(old(prevKeys), report, inputs);
      WindowsSessionExtends(old(reports), old(sent), report, inputs);
      WindowsRefinesFullState(reports, sent);
      assert sent[|old(sent)|..] == inputs;
    }

    method AppendAll(start: seq<KeyEvent>, keys: set<int>, down: bool)
      returns (inputs: seq<KeyEvent>, ghost order: seq<int>)
      ensures Enumerates(order, keys) && inputs == start + VkEvents(order, down)
    {
      inputs, order := start, [];
      var rest := keys;
      while rest != {}
        invariant rest <= keys && Enumerates(order, keys - rest)
        invariant inputs == start + VkEvents(order, down)
        decreases |rest|
      {
        Inhabited(rest);
        var k :| k in rest;
        EnumeratesMore(order, keys, rest, k);
        rest := rest - {k};
        var vk := HidToVk(k);
        if vk != 0 {
          inputs := inputs + [KeyEvent(vk, down)];
        }
        VkEventsMore(order, k, down);
        order := order + [k];
      }
    }
  }

  lemma EnumeratesMore(order: seq<int>, keys: set<int>, rest: set<int>, k: int)
    requires Enumerates(order, keys - rest) && rest <= keys && k in rest
    ensures Enumerates(order + [k], keys - (rest - {k}))
  {
    var longer := order + [k];
    forall x ensures x in longer <==> x in keys - (rest - {k}) {
      assert x in longer <==> x in order || x == k;
    }
    forall i, j | 0 <= i < j < |longer| ensures longer[i] != longer[j] {
      assert longer[i] == order[i] && order[i] in keys - rest;
    }
  }

  lemma VkEventsMore(order: seq<int>, k: int, down: bool)
    ensures VkEvents(order + [k], down) ==
            VkEvents(order, down) + if HidToVk(k) != 0 then [KeyEvent(HidToVk(k), down)] else []
  {
    var longer := order + [k];
    assert longer[..|longer| - 1] == order && longer[|longer| - 1] == k;
  }

  function LastKeys(reports: seq<Report>): set<int> {
    if reports == [] then {} else KeysOf(reports[|reports| - 1])
  }

  /** The events are a possible output of an injector that starts empty and is
      given these reports. */
  ghost predicate WindowsSession(reports: seq<Report>, events: seq<KeyEvent>)
    decreases |reports|
  {
    if reports == [] then events == []
    else
      var init := reports[..|reports| - 1];
      exists n :: 0 <= n <= |events| && WindowsSession(init, events[..n])
                  && WindowsBatch(LastKeys(init), reports[|reports| - 1], events[n..])
  }

  lemma WindowsSessionExtends(reports: seq<Report>, events: seq<KeyEvent>, r: Report,
                              batch: seq<KeyEvent>)
    requires WindowsSession(reports, events) && WindowsBatch(LastKeys(reports), r, batch)
    ensures WindowsSession(reports + [r], events + batch)
  {
    var longer, all := reports + [r], events + batch;
    assert longer[..|longer| - 1] == reports;
    assert all[..|events|] == events && all[|events|..] == batch;
  }

  /** The virtual keys of the first n modifier bits that are (or are not) set. */
  ghost function ModifierSet(modifier: int, down: bool, n: nat): set<int>
    requires n <= 8
  {
    set i | 0 <= i < n && HasBit(modifier, MOD_VK[i].0) == down :: MOD_VK[i].1
  }

  lemma ModifierSetStep(modifier: int, down: bool, n: nat)
    requires 0 < n <= 8
    ensures ModifierSet(modifier, down, n) ==
            ModifierSet(modifier, down, n - 1) +
            if HasBit(modifier, MOD_VK[n - 1].0) == down then {MOD_VK[n - 1].1} else {}
  {
    var shorter, longer := ModifierSet(modifier, down, n - 1), ModifierSet(modifier, down, n);
    forall vk ensures vk in longer <==>
                      vk in shorter || (HasBit(modifier, MOD_VK[n - 1].0) == down && vk == MOD_VK[n - 1].1)
    {
    }
  }

  lemma TouchedOne(events: seq<KeyEvent>, e: KeyEvent)
    ensures Touched(events + [e]) == Touched(events) + {e.vk}
  {
    assert forall x :: x in events + [e] <==> x in events || x == e;
  }

  lemma {:induction false} ModifierEventsTouch(modifier: int, down: bool, n: nat)
    requires n <= 8
    ensures Uniform(ModifierEvents(modifier, down, n), down)
    ensures Touched(ModifierEvents(modifier, down, n)) == ModifierSet(modifier, down, n)
  {
    if n == 0 {
    } else {
      ModifierEventsTouch(modifier, down, n - 1);
      ModifierSetStep(modifier, down, n);
      var before := ModifierEvents(modifier, down, n - 1);
      if HasBit(modifier, MOD_VK[n - 1].0) == down {
        TouchedOne(before, KeyEvent(MOD_VK[n - 1].1, down));
      } else {
        assert before + [] == before;
      }
    }
  }

  lemma ModifierVksAre(vk: int)
    ensures vk in ModifierVks() <==> exists i :: 0 <= i < 8 && MOD_VK[i].1 == vk
  {
    if vk in ModifierVks() {
      assert vk == MOD_VK[0].1 || vk == MOD_VK[1].1 || vk == MOD_VK[2].1 || vk == MOD_VK[3].1
        || vk == MOD_VK[4].1 || vk == MOD_VK[5].1 || vk == MOD_VK[6].1 || vk == MOD_VK[7].1;
    }
  }

  lemma ModifierVksDistinct(i: nat, j: nat)
    requires i < 8 && j < 8 && MOD_VK[i].1 == MOD_VK[j].1
    ensures i == j
  {
  }

  lemma {:induction false} VkEventsTouch(order: seq<int>, down: bool)
    ensures Uniform(VkEvents(order, down), down)
    ensures Touched(VkEvents(order, down)) == VksOf(set k | k in order)
  {
    if order == [] {
    } else {
      var init, last := order[..|order| - 1], order[|order| - 1];
      VkEventsTouch(init, down);
      assert (set k | k in order) == (set k | k in init) + {last};
      if HidToVk(last) != 0 {
        assert Touched(VkEvents(order, down)) == Touched(VkEvents(init, down)) + {HidToVk(last)};
      } else {
        assert VkEvents(order, down) == VkEvents(init, down);
      }
    }
  }

  /** Distinct forwarded keys have distinct virtual keys, none of them a modifier's. */
  lemma VkInjective(k1: int, k2: int)
    ensures HidToVk(k1) == HidToVk(k2) != 0 ==> k1 == k2
    ensures HidToVk(k1) !in ModifierVks()
  {
    VkToHidInvertsHidToVk(k1, HidToVk(k1));
    VkToHidInvertsHidToVk(k2, HidToVk(k2));
  }

  lemma VksOfSplit(prev: set<int>, cur: set<int>)
    ensures VksOf(prev) - VksOf(prev - cur) + VksOf(cur - prev) == VksOf(cur)
    ensures VksOf(prev) !! ModifierVks()
  {
    forall k1, k2 ensures HidToVk(k1) == HidToVk(k2) != 0 ==> k1 == k2 {
      VkInjective(k1, k2);
    }
    forall k ensures HidToVk(k) !in ModifierVks() {
      VkInjective(k, k);
    }
    var left := VksOf(prev) - VksOf(prev - cur) + VksOf(cur - prev);
    forall vk ensures vk in left <==> vk in VksOf(cur) {
      if vk in VksOf(cur) {
        var k :| k in cur && HidToVk(k) == vk != 0;
        if k in prev {
          assert vk in VksOf(prev);
        } else {
          assert k in cur - prev;
        }
      }
    }
  }

  lemma ModifierSplit(modifier: int)
    ensures Uniform(ModifierEvents(modifier, true, 8), true) && Uniform(ModifierEvents(modifier, false, 8), false)
    ensures Touched(ModifierEvents(modifier, true, 8)) == HeldModifiers(modifier)
    ensures Touched(ModifierEvents(modifier, false, 8)) == ModifierVks() - HeldModifiers(modifier)
    ensures HeldModifiers(modifier) <= ModifierVks()
  {
    ModifierEventsTouch(modifier, true, 8);
    ModifierEventsTouch(modifier, false, 8);
    forall vk
      ensures vk in ModifierSet(modifier, true, 8) <==> vk in HeldModifiers(modifier)
      ensures vk in ModifierSet(modifier, false, 8) <==> vk in ModifierVks() && vk !in HeldModifiers(modifier)
      ensures vk in HeldModifiers(modifier) ==> vk in ModifierVks()
    {
      OneModifierSplits(modifier, vk);
    }
    Same(ModifierSet(modifier, true, 8), HeldModifiers(modifier));
    Same(ModifierSet(modifier, false, 8), ModifierVks() - HeldModifiers(modifier));
  }

  lemma OneModifierSplits(modifier: int, vk: int)
    ensures vk in ModifierSet(modifier, true, 8) <==> vk in HeldModifiers(modifier)
    ensures vk in ModifierSet(modifier, false, 8) <==> vk in ModifierVks() && vk !in HeldModifiers(modifier)
    ensures vk in HeldModifiers(modifier) ==> vk in ModifierVks()
  {
    ModifierVksAre(vk);
    if vk in ModifierVks() {
      var i :| 0 <= i < 8 && MOD_VK[i].1 == vk;
      forall j | 0 <= j < 8 && MOD_VK[j].1 == vk ensures j == i {
        ModifierVksDistinct(i, j);
      }
    }
  }

  lemma VkEventsOf(order: seq<int>, keys: set<int>, down: bool)
    requires Enumerates(order, keys)
    ensures Uniform(VkEvents(order, down), down) && Touched(VkEvents(order, down)) == VksOf(keys)
  {
    VkEventsTouch(order, down);
    Same((set k | k in order), keys);
  }

  /** One batch takes the keys and modifiers of the previous report to those of this one. */
  lemma BatchRefines(prev: set<int>, mods: set<int>, r: Report, batch: seq<KeyEvent>)
    requires WindowsBatch(prev, r, batch) && mods <= ModifierVks()
    ensures Replay(VksOf(prev) + mods, batch) == VksOf(KeysOf(r)) + HeldModifiers(Modifier(r))
  {
    var cur, m := KeysOf(r), Modifier(r);
    var released, pressed :|
      && Enumerates(released, prev - cur) && Enumerates(pressed, cur - prev)
      && batch == ModifierEvents(m, true, 8) + VkEvents(released, false)
                  + VkEvents(pressed, true) + ModifierEvents(m, false, 8);
    var b2, b3 := VkEvents(released, false), VkEvents(pressed, true);
    VkEventsOf(released, prev - cur, false);
    VkEventsOf(pressed, cur - prev, true);
    OrderedBatchRefines(prev, cur, mods, m, b2, b3);
  }

  lemma OrderedBatchRefines(prev: set<int>, cur: set<int>, mods: set<int>, m: int, ups: seq<KeyEvent>,
                            downs: seq<KeyEvent>)
    requires mods <= ModifierVks()
    requires Uniform(ups, false) && Touched(ups) == VksOf(prev - cur)
    requires Uniform(downs, true) && Touched(downs) == VksOf(cur - prev)
    ensures Replay(VksOf(prev) + mods, ModifierEvents(m, true, 8) + ups + downs + ModifierEvents(m, false, 8))
            == VksOf(cur) + HeldModifiers(m)
  {
    ModifierSplit(m);
    ReplayParts(VksOf(prev) + mods, ModifierEvents(m, true, 8), ups, downs, ModifierEvents(m, false, 8));
    VksOfSplit(prev, cur);
    VksOfSplit(cur, prev);
    KeysAndModifiers(VksOf(prev), VksOf(prev - cur), VksOf(cur - prev), VksOf(cur), mods, HeldModifiers(m),
        ModifierVks());
  }

  lemma KeysAndModifiers(prev: set<int>, up: set<int>, down: set<int>, cur: set<int>,
                         mods: set<int>, held: set<int>, all: set<int>)
    requires prev - up + down == cur && prev !! all && cur !! all && up <= prev && down <= cur
    requires mods <= all && held <= all
    ensures prev + mods + held - up + down - (all - held) == cur + held
  {
  }

  lemma ReplayParts(held: set<int>, b1: seq<KeyEvent>, b2: seq<KeyEvent>, b3: seq<KeyEvent>, b4: seq<KeyEvent>)
    requires Uniform(b1, true) && Uniform(b2, false) && Uniform(b3, true) && Uniform(b4, false)
    ensures Replay(held, b1 + b2 + b3 + b4) == held + Touched(b1) - Touched(b2) + Touched(b3) - Touched(b4)
  {
    ReplayConcat(held, b1 + b2 + b3, b4);
    ReplayConcat(held, b1 + b2, b3);
    ReplayConcat(held, b1, b2);
    ReplayUniform(held, b1, true);
    ReplayUniform(Replay(held, b1), b2, false);
    ReplayUniform(Replay(held, b1 + b2), b3, true);
    ReplayUniform(Replay(held, b1 + b2 + b3), b4, false);
  }

  /** Where the events of the last report begin. */
  lemma SessionSplit(reports: seq<Report>, events: seq<KeyEvent>) returns (n: nat)
    requires reports != [] && WindowsSession(reports, events)
    ensures var init, last := reports[..|reports| - 1], reports[|reports| - 1];
            n <= |events| && WindowsSession(init, events[..n]) && WindowsBatch(LastKeys(init), last, events[n..])
  {
    var init := reports[..|reports| - 1];
    n :| 0 <= n <= |events| && WindowsSession(init, events[..n])
         && WindowsBatch(LastKeys(init), reports[|reports| - 1], events[n..]);
  }

  lemma LastReportRefines(init: seq<Report>, last: Report, before: seq<KeyEvent>, batch: seq<KeyEvent>)
    requires WindowsBatch(LastKeys(init), last, batch)
    requires init == [] ==> Replay({}, before) == {}
    requires init != [] ==>
               Replay({}, before) == VksOf(LastKeys(init)) + HeldModifiers(Modifier(init[|init| - 1]))
    ensures Replay({}, before + batch) == VksOf(KeysOf(last)) + HeldModifiers(Modifier(last))
  {
    ReplayConcat({}, before, batch);
    var mods := if init == [] then {} else HeldModifiers(Modifier(init[|init| - 1]));
    if init != [] { ModifierSplit(Modifier(init[|init| - 1])); }
    assert Replay({}, before) == VksOf(LastKeys(init)) + mods;
    BatchRefines(LastKeys(init), mods, last, batch);
  }

  /** The delta injector refines the full keyboard state: after any reports, what
      the operating system holds is exactly the last report's mapped keys and modifiers. */
  lemma {:induction false} WindowsRefinesFullState(reports: seq<Report>, events: seq<KeyEvent>)
    requires WindowsSession(reports, events)
    ensures reports == [] ==> Replay({}, events) == {}
    ensures reports != [] ==>
              var last := reports[|reports| - 1];
              Replay({}, events) == VksOf(KeysOf(last)) + HeldModifiers(Modifier(last))
    decreases |reports|
  {
    if reports == [] {
    } else {
      var init, last := reports[..|reports| - 1], reports[|reports| - 1];
      var n := SessionSplit(reports, events);
      WindowsRefinesFullState(init, events[..n]);
      LastReportRefines(init, last, events[..n], events[n..]);
      assert events == events[..n] + events[n..];
    }
  }

  // ---------------------------------------------------------------------
  // What Windows holds, key by key
  // ---------------------------------------------------------------------

  datatype ModifierKey =
    | LeftCtrl | LeftShift | LeftAlt | LeftWin | RightCtrl | RightShift | RightAlt | RightWin

  /** Its bit in the modifier byte (section 8.3 of USB HID 1.11). */
  function BitOf(k: ModifierKey): (bit: int)
    ensures bit > 0
  {
    match k
    case LeftCtrl => 1 case LeftShift => 2 case LeftAlt => 4 case LeftWin => 8
    case RightCtrl => 16 case RightShift => 32 case RightAlt => 64 case RightWin => 128
  }

  /** Its virtual key: VK_LCONTROL, VK_LSHIFT, VK_LMENU, VK_LWIN and their right
      counterparts. */
  function VkOf(k: ModifierKey): int {
    match k
    case LeftCtrl => 0xA2 case LeftShift => 0xA0 case LeftAlt => 0xA4 case LeftWin => 0x5B
    case RightCtrl => 0xA3 case RightShift => 0xA1 case RightAlt => 0xA5 case RightWin => 0x5C
  }

  predicate Asks(modifier: int, k: ModifierKey) {
    modifier / BitOf(k) % 2 == 1
  }

  function PlaceOf(k: ModifierKey): (i: nat)
    ensures i < 8 && MOD_VK[i] == (BitOf(k), VkOf(k))
  {
    match k
    case LeftCtrl => 0 case LeftShift => 1 case LeftAlt => 2 case LeftWin => 3
    case RightCtrl => 4 case RightShift => 5 case RightAlt => 6 case RightWin => 7
  }

  lemma PlacesCover(i: nat)
    requires i < 8
    ensures exists k :: PlaceOf(k) == i
  {
    assert PlaceOf([LeftCtrl, LeftShift, LeftAlt, LeftWin, RightCtrl, RightShift, RightAlt, RightWin][i]) == i;
  }

  lemma HeldModifiersAre(modifier: int, vk: int)
    ensures vk in HeldModifiers(modifier) <==> exists k :: VkOf(k) == vk && Asks(modifier, k)
  {
    if vk in HeldModifiers(modifier) {
      var i :| 0 <= i < 8 && HasBit(modifier, MOD_VK[i].0) && MOD_VK[i].1 == vk;
      PlacesCover(i);
      var k :| PlaceOf(k) == i;
      assert VkOf(k) == vk && Asks(modifier, k);
    }
    if k :| VkOf(k) == vk && Asks(modifier, k) {
      assert HasBit(modifier, MOD_VK[PlaceOf(k)].0) && MOD_VK[PlaceOf(k)].1 == vk;
    }
  }

  /** After any reports Windows holds exactly the keys in bytes 2 to 7 of the last
      report, as far as they have a virtual key, and the modifiers its first byte
      asks for. */
  lemma WindowsHoldsExactly(reports: seq<Report>, events: seq<KeyEvent>, vk: int)
    requires WindowsSession(reports, events) && reports != []
    ensures var last := reports[|reports| - 1];
            vk in Replay({}, events) <==>
              || (exists j :: 2 <= j < 8 && last[j] != 0 && HidToVk(last[j]) == vk != 0)
              || (exists k :: VkOf(k) == vk && Asks(last[0], k))
  {
    WindowsRefinesFullState(reports, events);
    HeldModifiersAre(reports[|reports| - 1][0], vk);
  }

  lemma KeyDownIsPressed(a: seq<KeyEvent>, b: seq<KeyEvent>, c: seq<KeyEvent>, d: seq<KeyEvent>, n: nat)
    requires Uniform(b, false) && Uniform(d, false) && Touched(a) <= ModifierVks()
    requires n < |a + b + c + d| && (a + b + c + d)[n].down && (a + b + c + d)[n].vk !in ModifierVks()
    ensures |a| + |b| <= n <= |a| + |b| + |c|
    ensures (a + b + c + d)[..n] == a + b + c[..n - |a| - |b|] + []
  {
    var all := a + b + c + d;
    forall i | 0 <= i < |a| ensures all[i].vk in ModifierVks() {
      assert a[i] in a && a[i].vk in Touched(a);
    }
    forall i | |a| <= i < |a| + |b| ensures !all[i].down {
      assert b[i - |a|] in b;
    }
    forall i | |a| + |b| + |c| <= i < |all| ensures !all[i].down {
      assert d[i - |a| - |b| - |c|] in d;
    }
  }

  /** When a report's new key goes down, the keys it no longer holds are up, but
      the modifiers held are the previous report's as well as its own. */
  lemma KeyDownState(prev: set<int>, mods: set<int>, r: Report, batch: seq<KeyEvent>, n: nat)
    requires WindowsBatch(prev, r, batch) && mods <= ModifierVks()
    requires n < |batch| && batch[n].down && batch[n].vk !in ModifierVks()
    ensures var held := Replay(VksOf(prev) + mods, batch[..n]);
            held * ModifierVks() == mods + HeldModifiers(Modifier(r)) && held !! VksOf(prev - KeysOf(r))
  {
    var cur, m := KeysOf(r), Modifier(r);
    var released, pressed :|
      && Enumerates(released, prev - cur) && Enumerates(pressed, cur - prev)
      && batch == ModifierEvents(m, true, 8) + VkEvents(released, false)
                  + VkEvents(pressed, true) + ModifierEvents(m, false, 8);
    var a, b, c, d := ModifierEvents(m, true, 8), VkEvents(released, false), VkEvents(pressed, true),
        ModifierEvents(m, false, 8);
    VkEventsOf(released, prev - cur, false);
    VkEventsOf(pressed, cur - prev, true);
    ModifierSplit(m);
    KeyDownIsPressed(a, b, c, d, n);
    var some := c[..n - |a| - |b|];
    forall e | e in some ensures e in c {}
    ReplayParts(VksOf(prev) + mods, a, b, some, []);
    VksOfSplit(prev, cur);
    VksOfSplit(cur, prev);
    VksApart(prev - cur, cur - prev);
    StateAtKeyDown(VksOf(prev), VksOf(prev - cur), Touched(some), mods, HeldModifiers(m), ModifierVks());
  }

  lemma VksApart(a: set<int>, b: set<int>)
    requires a !! b
    ensures VksOf(a) !! VksOf(b)
  {
    forall vk | vk in VksOf(a) && vk in VksOf(b) ensures false {
      var k1 :| k1 in a && HidToVk(k1) == vk != 0;
      var k2 :| k2 in b && HidToVk(k2) == vk != 0;
      VkInjective(k1, k2);
    }
  }

  lemma StateAtKeyDown(prev: set<int>, up: set<int>, down: set<int>, mods: set<int>, held: set<int>, all: set<int>)
    requires prev !! all && down !! all && mods <= all && held <= all && up !! down && up !! all
    ensures (prev + mods + held - up + down - {}) * all == mods + held && (prev + mods + held - up + down - {}) !! up
  {
  }

  /** So after any reports a key of one more report goes down under exactly that
      report's modifiers if and only if it keeps all the modifiers of the report
      before: the injector releases modifiers last. */
  lemma KeyDownUnderModifiers(reports: seq<Report>, events: seq<KeyEvent>, r: Report, batch: seq<KeyEvent>, n: nat)
    requires WindowsSession(reports, events) && WindowsBatch(LastKeys(reports), r, batch) && reports != []
    requires n < |batch| && batch[n].down && batch[n].vk !in ModifierVks()
    ensures var held := Replay({}, events + batch[..n]);
            var before := Modifier(reports[|reports| - 1]);
            held * ModifierVks() == HeldModifiers(Modifier(r)) <==>
            forall k | Asks(before, k) :: Asks(Modifier(r), k)
  {
    var before, m := Modifier(reports[|reports| - 1]), Modifier(r);
    WindowsRefinesFullState(reports, events);
    ModifierSplit(before);
    ReplayConcat({}, events, batch[..n]);
    KeyDownState(LastKeys(reports), HeldModifiers(before), r, batch, n);
    SameModifiers(before, m);
  }

  lemma SameModifiers(before: int, m: int)
    ensures HeldModifiers(before) + HeldModifiers(m) == HeldModifiers(m) <==>
            forall k | Asks(before, k) :: Asks(m, k)
  {
    forall vk ensures vk in HeldModifiers(before) <==> exists k :: VkOf(k) == vk && Asks(before, k) {
      HeldModifiersAre(before, vk);
    }
    forall vk ensures vk in HeldModifiers(m) <==> exists k :: VkOf(k) == vk && Asks(m, k) {
      HeldModifiersAre(m, vk);
    }
    if forall k | Asks(before, k) :: Asks(m, k) {
      assert forall vk | vk in HeldModifiers(before) :: vk in HeldModifiers(m);
    } else {
      var k :| Asks(before, k) && !Asks(m, k);
      assert VkOf(k) in HeldModifiers(before);
      forall k' | VkOf(k') == VkOf(k) ensures k' == k {}
      assert VkOf(k) !in HeldModifiers(m);
    }
  }

  // ---------------------------------------------------------------------
  // macOS
  // ---------------------------------------------------------------------

  function MacEvents(order: seq<int>, down: bool): seq<KeyEvent> {
    if order == [] then []
    else MacEvents(order[..|order| - 1], down) +
         match HidToMac(order[|order| - 1])
         case Some(code) => [KeyEvent(code, down)]
         case None => []
  }

  ghost function MacCodesOf(keys: set<int>): set<int> {
    set k | k in keys && HidToMac(k).Some? :: HidToMac(k).value
  }

  /** Presses first, then releases; the modifier byte is not looked at. */
  ghost predicate MacBatch(prev: set<int>, r: Report, batch: seq<KeyEvent>) {
    exists pressed, released ::
      && Enumerates(pressed, KeysOf(r) - prev)
      && Enumerates(released, prev - KeysOf(r))
      && batch == MacEvents(pressed, true) + MacEvents(released, false)
  }

  ghost predicate MacSession(reports: seq<Report>, events: seq<KeyEvent>)
    decreases |reports|
  {
    if reports == [] then events == []
    else
      var init := reports[..|reports| - 1];
      exists n :: 0 <= n <= |events| && MacSession(init, events[..n])
                  && MacBatch(LastKeys(init), reports[|reports| - 1], events[n..])
  }

  class HidInjectorMacOS {
    var prevKeys: set<int>
    ghost var reports: seq<Report>
    ghost var sent: seq<KeyEvent>    // posted to the event tap so far

    ghost predicate Valid()
      reads this
    {
      prevKeys == LastKeys(reports) && MacSession(reports, sent)
    }

    constructor ()
      ensures Valid() && reports == [] && sent == []
    {
      prevKeys := {};
      reports, sent := [], [];
    }

    method InjectKeyboard(report: Report)
      requires Valid()
      modifies this
      ensures Valid() && reports == old(reports) + [report]
      ensures old(sent) <= sent && MacBatch(old(prevKeys), report, sent[|old(sent)|..])
      ensures prevKeys == KeysOf(report)
      ensures Replay({}, sent) == MacCodesOf(KeysOf(report))
    {
      var currentKeys := set i | 2 <= i < 8 && report[i] != 0 :: report[i];
      ghost var pressed := PostAll(currentKeys - prevKeys, true);
      ghost var released := PostAll(prevKeys - currentKeys, false);
      prevKeys := currentKeys;
      reports := reports + [report];
      ghost var batch := MacEvents(pressed, true) + MacEvents(released, false);
      assert sent == old(sent) + batch;
      assert MacBatch(old(prevKeys), report, batch);
      MacSessionExtends(old(reports), old(sent), report, batch);
      MacRefinesFullState(reports, sent);
      assert sent[|old(sent)|..] == batch;
    }

    method PostAll(keys: set<int>, down: bool) returns (ghost order: seq<int>)
      modifies this`sent
      ensures Enumerates(order, keys) && sent == old(sent) + MacEvents(order, down)
    {
      order := [];
      var rest := keys;
      while rest != {}
        invariant rest <= keys && Enumerates(order, keys - rest)
        invariant sent == old(sent) + MacEvents(order, down)
        decreases |rest|
      {
        Inhabited(rest);
        var k :| k in rest;
        EnumeratesMore(order, keys, rest, k);
        rest := rest - {k};
        var vk := HidToMac(k);
        if vk.Some? {
          sent := sent + [KeyEvent(vk.value, down)];
        }
        MacEventsMore(order, k, down);
        order := order + [k];
      }
    }
  }

  lemma MacEventsMore(order: seq<int>, k: int, down: bool)
    ensures MacEvents(order + [k], down) ==
            MacEvents(order, down) + match HidToMac(k)
                                     case Some(code) => [KeyEvent(code, down)]
                                     case None => []
  {
    var longer := order + [k];
    assert longer[..|longer| - 1] == order && longer[|longer| - 1] == k;
  }

  lemma MacSessionExtends(reports: seq<Report>, events: seq<KeyEvent>, r: Report,
                          batch: seq<KeyEvent>)
    requires MacSession(reports, events) && MacBatch(LastKeys(reports), r, batch)
    ensures MacSession(reports + [r], events + batch)
  {
    var longer, all := reports + [r], events + batch;
    assert longer[..|longer| - 1] == reports;
    assert all[..|events|] == events && all[|events|..] == batch;
  }

  lemma {:induction false} MacEventsTouch(order: seq<int>, down: bool)
    ensures Uniform(MacEvents(order, down), down)
    ensures Touched(MacEvents(order, down)) == MacCodesOf(set k | k in order)
  {
    if order == [] {
    } else {
      var init, last := order[..|order| - 1], order[|order| - 1];
      MacEventsTouch(init, down);
      assert (set k | k in order) == (set k | k in init) + {last};
      if HidToMac(last).Some? {
        assert Touched(MacEvents(order, down)) == Touched(MacEvents(init, down)) + {HidToMac(last).value};
      } else {
        assert MacEvents(order, down) == MacEvents(init, down);
      }
    }
  }

  /** Pressing before releasing is harmless because no two keys share a code. */
  lemma MacCodesSplit(prev: set<int>, cur: set<int>)
    ensures MacCodesOf(prev) + MacCodesOf(cur - prev) - MacCodesOf(prev - cur) == MacCodesOf(cur)
  {
    forall k1, k2 ensures HidToMac(k1).Some? && HidToMac(k1) == HidToMac(k2) ==> k1 == k2 {
      if HidToMac(k1).Some? && HidToMac(k1) == HidToMac(k2) {
        MacToHidInvertsHidToMac(k1, HidToMac(k1).value);
        MacToHidInvertsHidToMac(k2, HidToMac(k1).value);
      }
    }
    var left := MacCodesOf(prev) + MacCodesOf(cur - prev) - MacCodesOf(prev - cur);
    forall code ensures code in left <==> code in MacCodesOf(cur) {
      if code in MacCodesOf(cur) {
        var k :| k in cur && HidToMac(k) == Some(code);
        if k in prev {
          assert code in MacCodesOf(prev);
        } else {
          assert k in cur - prev;
        }
      }
    }
  }

  lemma MacEventsOf(order: seq<int>, keys: set<int>, down: bool)
    requires Enumerates(order, keys)
    ensures Uniform(MacEvents(order, down), down) && Touched(MacEvents(order, down)) == MacCodesOf(keys)
  {
    MacEventsTouch(order, down);
    Same((set k | k in order), keys);
  }

  /** macOS is told of new keys first: when one goes down, no key of the report
      before is up yet. */
  lemma MacKeyDownState(prev: set<int>, r: Report, batch: seq<KeyEvent>, n: nat)
    requires MacBatch(prev, r, batch) && n < |batch| && batch[n].down
    ensures MacCodesOf(prev) <= Replay(MacCodesOf(prev), batch[..n])
  {
    var cur := KeysOf(r);
    var pressed, released :|
      && Enumerates(pressed, cur - prev) && Enumerates(released, prev - cur)
      && batch == MacEvents(pressed, true) + MacEvents(released, false);
    MacEventsOf(pressed, cur - prev, true);
    MacEventsOf(released, prev - cur, false);
    var downs, ups := MacEvents(pressed, true), MacEvents(released, false);
    forall i | |downs| <= i < |batch| ensures !batch[i].down {
      assert ups[i - |downs|] in ups;
    }
    assert batch[..n] == downs[..n];
    forall e | e in downs[..n] ensures e in downs {}
    ReplayUniform(MacCodesOf(prev), downs[..n], true);
  }

  lemma ReplayDownUp(held: set<int>, downs: seq<KeyEvent>, ups: seq<KeyEvent>)
    requires Uniform(downs, true) && Uniform(ups, false)
    ensures Replay(held, downs + ups) == held + Touched(downs) - Touched(ups)
  {
    ReplayConcat(held, downs, ups);
    ReplayUniform(held, downs, true);
    ReplayUniform(Replay(held, downs), ups, false);
  }

  lemma MacBatchRefines(prev: set<int>, r: Report, batch: seq<KeyEvent>)
    requires MacBatch(prev, r, batch)
    ensures Replay(MacCodesOf(prev), batch) == MacCodesOf(KeysOf(r))
  {
    var cur := KeysOf(r);
    var pressed, released :|
      && Enumerates(pressed, cur - prev) && Enumerates(released, prev - cur)
      && batch == MacEvents(pressed, true) + MacEvents(released, false);
    MacEventsOf(pressed, cur - prev, true);
    MacEventsOf(released, prev - cur, false);
    ReplayDownUp(MacCodesOf(prev), MacEvents(pressed, true), MacEvents(released, false));
    MacCodesSplit(prev, cur);
  }

  /** Where the events of the last report begin. */
  lemma MacSessionSplit(reports: seq<Report>, events: seq<KeyEvent>) returns (n: nat)
    requires reports != [] && MacSession(reports, events)
    ensures var init, last := reports[..|reports| - 1], reports[|reports| - 1];
            n <= |events| && MacSession(init, events[..n]) && MacBatch(LastKeys(init), last, events[n..])
  {
    var init := reports[..|reports| - 1];
    n :| 0 <= n <= |events| && MacSession(init, events[..n])
         && MacBatch(LastKeys(init), reports[|reports| - 1], events[n..]);
  }

  lemma MacLastReportRefines(prev: set<int>, last: Report, before: seq<KeyEvent>, batch: seq<KeyEvent>)
    requires MacBatch(prev, last, batch) && Replay({}, before) == MacCodesOf(prev)
    ensures Replay({}, before + batch) == MacCodesOf(KeysOf(last))
  {
    ReplayConcat({}, before, batch);
    MacBatchRefines(prev, last, batch);
  }

  /** On macOS too, what is held after any reports is exactly the last report's
      mapped keys; its modifiers are never held. */
  lemma {:induction false} MacRefinesFullState(reports: seq<Report>, events: seq<KeyEvent>)
    requires MacSession(reports, events)
    ensures Replay({}, events) == MacCodesOf(LastKeys(reports))
    decreases |reports|
  {
    if reports == [] {
    } else {
      var init, last := reports[..|reports| - 1], reports[|reports| - 1];
      var n := MacSessionSplit(reports, events);
      MacRefinesFullState(init, events[..n]);
      MacLastReportRefines(LastKeys(init), last, events[..n], events[n..]);
      assert events == events[..n] + events[n..];
    }
  }
}
