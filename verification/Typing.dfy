/**
 Typing end to end: text becomes strokes, strokes become packets, packets become
 reports, reports become key events, and the key events, read back through the
 US layout, are the text again.
 */
module Typing {
  import opened Options
  import opened HidTables
  import opened HidInjector
  import opened Controller

  const LSHIFT_VK := 0xA0
  const RSHIFT_VK := 0xA1

  // ---------------------------------------------------------------------
  // Reading key events back
  // ---------------------------------------------------------------------

  /** The text one event produces on a US-layout Windows machine that holds these
      keys: key-ups and modifier keys produce none, nor does a key pressed under a
      modifier other than Shift. */
  ghost function CharsOf(held: set<int>, e: KeyEvent): string {
    if !e.down || !(held * ModifierVks() <= {LSHIFT_VK, RSHIFT_VK}) then ""
    else match VkToHid(e.vk)
      case None => ""
      case Some(key) =>
        match UsChar(key, LSHIFT_VK in held || RSHIFT_VK in held)
        case None => ""
        case Some(c) => [c]
  }

  /** The text a run of events produces, each key read under the modifiers held when it goes down. */
  ghost function Decoded(held: set<int>, events: seq<KeyEvent>): string {
    if events == [] then ""
    else
      var init := events[..|events| - 1];
      Decoded(held, init) + CharsOf(Replay(held, init), events[|events| - 1])
  }

  lemma {:induction false} DecodedConcat(held: set<int>, a: seq<KeyEvent>, b: seq<KeyEvent>)
    ensures Decoded(held, a + b) == Decoded(held, a) + Decoded(Replay(held, a), b)
  {
    if b == [] {
      assert a + b == a;
    } else {
      var init := b[..|b| - 1];
      assert (a + b)[..|a + b| - 1] == a + init;
      DecodedConcat(held, a, init);
      ReplayConcat(held, a, init);
    }
  }

  ghost predicate Silent(events: seq<KeyEvent>) {
    forall e | e in events :: !e.down || e.vk in ModifierVks()
  }

  lemma SilentEvent(held: set<int>, e: KeyEvent)
    requires !e.down || e.vk in ModifierVks()
    ensures CharsOf(held, e) == ""
  {
    assert e.vk in ModifierVks() ==> VkToHid(e.vk) == None;
  }

  lemma {:induction false} SilentDecodes(held: set<int>, events: seq<KeyEvent>)
    requires Silent(events)
    ensures Decoded(held, events) == ""
  {
    if events == [] {
    } else {
      var init, last := events[..|events| - 1], events[|events| - 1];
      assert last in events;
      forall e | e in init ensures e in events {}
      SilentDecodes(held, init);
      SilentEvent(Replay(held, init), last);
    }
  }

  lemma ModifiersAreSilent(modifier: int, down: bool)
    ensures Silent(ModifierEvents(modifier, down, 8))
  {
    ModifierEventsTouch(modifier, down, 8);
    ModifierSplit(modifier);
    var events := ModifierEvents(modifier, down, 8);
    forall e | e in events ensures e.vk in ModifierVks() {
      assert e.vk in Touched(events);
    }
  }

  // ---------------------------------------------------------------------
  // What should come out
  // ---------------------------------------------------------------------

  function Supported(text: string): string {
    if text == [] then ""
    else
      var last := text[|text| - 1];
      Supported(text[..|text| - 1]) + if UsStroke(last).Some? then [last] else ""
  }

  /** What one character comes out as: itself if the US layout has it, else nothing;
      the Kelvin sign, whose lower-case form is `k`, comes out as `K`. */
  function Rendered(c: char): string {
    if c == KELVIN then "K" else if UsStroke(c).Some? then [c] else ""
  }

  function RenderedText(text: string): string {
    if text == [] then "" else RenderedText(text[..|text| - 1]) + Rendered(text[|text| - 1])
  }

  lemma {:induction false} RenderedIsNotShorter(text: string)
    ensures |RenderedText(text)| >= |Supported(text)|
    ensures KELVIN in text ==> |RenderedText(text)| > |Supported(text)|
  {
    if text == [] {
    } else {
      var init, last := text[..|text| - 1], text[|text| - 1];
      assert text == init + [last];
      RenderedIsNotShorter(init);
    }
  }

  lemma {:induction false} RenderedWithoutKelvin(text: string)
    requires KELVIN !in text
    ensures RenderedText(text) == Supported(text)
  {
    if text == [] {
    } else {
      assert text[|text| - 1] in text;
      RenderedWithoutKelvin(text[..|text| - 1]);
    }
  }

  /** What is typed is the text less its unsupported characters, exactly when the
      Kelvin sign is not in it. */
  lemma RenderedIsSupported(text: string)
    ensures RenderedText(text) == Supported(text) <==> KELVIN !in text
  {
    RenderedIsNotShorter(text);
    if KELVIN !in text { RenderedWithoutKelvin(text); }
  }

  // ---------------------------------------------------------------------
  // One stroke
  // ---------------------------------------------------------------------

  lemma {:induction false} ReportsConcat(a: seq<Packet>, b: seq<Packet>)
    ensures ReportsIn(a + b) == ReportsIn(a) + ReportsIn(b)
  {
    if b == [] {
      assert a + b == a;
    } else {
      assert (a + b)[..|a + b| - 1] == a + b[..|b| - 1];
      ReportsConcat(a, b[..|b| - 1]);
    }
  }

  lemma StrokeReports(modifier: Byte, key: Byte)
    ensures ReportsIn(StrokePackets(modifier, key)) == [KeyReport(modifier, key), KeyReport(0, 0)]
  {
    var press: Packet, release: Packet := [KEYBOARD] + KeyReport(modifier, key), [KEYBOARD] + KeyReport(0, 0);
    var none: seq<Packet> := [];
    assert press[1..9] == KeyReport(modifier, key) && release[1..9] == KeyReport(0, 0);
    assert StrokePackets(modifier, key)[..1] == [press];
    assert [press][..0] == none;
    assert ReportsIn([press]) == [KeyReport(modifier, key)];
  }

  lemma KeyReportKeys(modifier: Byte, key: Byte)
    ensures KeysOf(KeyReport(modifier, key)) == if key == 0 then {} else {key}
  {
    var r := KeyReport(modifier, key);
    assert r[2] == key;
  }

  lemma EnumeratesSingleton(order: seq<int>, k: int)
    requires Enumerates(order, {k})
    ensures order == [k]
  {
    assert k in order;
    forall i | 0 <= i < |order| ensures order[i] == k && i == 0 {
      assert order[0] in order && order[i] in order;
    }
    assert order[|order| - 1] == k;
  }

  lemma FirstIsIn(order: seq<int>)
    ensures order == [] || order[0] in order
  {
  }

  lemma EnumeratesEmpty(order: seq<int>)
    requires Enumerates(order, {})
    ensures order == []
  {
    FirstIsIn(order);
  }

  lemma PressBatchShape(modifier: Byte, key: Byte, batch: seq<KeyEvent>)
    requires WindowsBatch({}, KeyReport(modifier, key), batch) && key != 0 && HidToVk(key) != 0
    ensures batch == ModifierEvents(modifier, true, 8) + [KeyEvent(HidToVk(key), true)]
            + ModifierEvents(modifier, false, 8)
  {
    var r := KeyReport(modifier, key);
    KeyReportKeys(modifier, key);
    var released, pressed :|
      && Enumerates(released, {} - KeysOf(r)) && Enumerates(pressed, KeysOf(r) - {})
      && batch == ModifierEvents(modifier, true, 8) + VkEvents(released, false)
                  + VkEvents(pressed, true) + ModifierEvents(modifier, false, 8);
    assert {} - KeysOf(r) == {} && KeysOf(r) - {} == {key};
    EnumeratesEmpty(released);
    EnumeratesSingleton(pressed, key);
    assert [key][..0] == [];
    assert VkEvents([key], true) == [KeyEvent(HidToVk(key), true)];
  }

  /** A press with nothing held before: one key-down, read under exactly this report's modifiers. */
  lemma ModifiersHeld(modifier: Byte)
    ensures Replay({}, ModifierEvents(modifier, true, 8)) == HeldModifiers(modifier)
  {
    ModifierSplit(modifier);
    ReplayUniform({}, ModifierEvents(modifier, true, 8), true);
  }

  lemma PressDecodes(modifier: Byte, key: Byte, batch: seq<KeyEvent>)
    requires WindowsBatch({}, KeyReport(modifier, key), batch) && key != 0 && HidToVk(key) != 0
    ensures Decoded({}, batch) == CharsOf(HeldModifiers(modifier), KeyEvent(HidToVk(key), true))
  {
    PressBatchShape(modifier, key, batch);
    var downs, press, ups := ModifierEvents(modifier, true, 8), KeyEvent(HidToVk(key), true),
        ModifierEvents(modifier, false, 8);
    ModifiersAreSilent(modifier, true);
    ModifiersAreSilent(modifier, false);
    ThreePartDecode({}, downs, [press], ups);
    ModifiersHeld(modifier);
    OneEventDecodes(HeldModifiers(modifier), press);
  }

  lemma OneEventDecodes(held: set<int>, e: KeyEvent)
    ensures Decoded(held, [e]) == CharsOf(held, e)
  {
    assert [e][..0] == [];
  }

  lemma ThreePartDecode(held: set<int>, a: seq<KeyEvent>, b: seq<KeyEvent>, c: seq<KeyEvent>)
    requires Silent(a) && Silent(c)
    ensures Decoded(held, a + b + c) == Decoded(Replay(held, a), b)
  {
    DecodedConcat(held, a + b, c);
    DecodedConcat(held, a, b);
    SilentDecodes(held, a);
    SilentDecodes(Replay(held, a + b), c);
  }

  /** A report that presses no new key produces no text, whatever is held: without
      a release in between, a repeated letter would be lost. */
  lemma NoNewKeyIsSilent(prev: set<int>, r: Report, held: set<int>, batch: seq<KeyEvent>)
    requires WindowsBatch(prev, r, batch) && KeysOf(r) <= prev
    ensures Decoded(held, batch) == ""
  {
    var m := Modifier(r);
    var released, pressed :|
      && Enumerates(released, prev - KeysOf(r)) && Enumerates(pressed, KeysOf(r) - prev)
      && batch == ModifierEvents(m, true, 8) + VkEvents(released, false)
                  + VkEvents(pressed, true) + ModifierEvents(m, false, 8);
    assert KeysOf(r) - prev == {};
    EnumeratesEmpty(pressed);
    ModifiersAreSilent(m, true);
    ModifiersAreSilent(m, false);
    VkEventsTouch(released, false);
    assert Silent(batch);
    SilentDecodes(held, batch);
  }

  /** The modifiers a stroke holds read back as its Shift state. */
  lemma StrokeReadsBack(c: char)
    requires TypedStroke(c).Some?
    ensures var s := TypedStroke(c).value;
            HidToVk(s.key) != 0
            && CharsOf(HeldModifiers(s.modifier), KeyEvent(HidToVk(s.key), true)) == Rendered(c)
  {
    var s := TypedStroke(c).value;
    TablesAgree(c);
    var c' := if c == KELVIN then 'K' else c;
    UsCharInvertsUsStroke(c', s.key, s.modifier == MOD_LSHIFT);
    StrokeBytes(c);
    StrokeHasVk(c);
    VkToHidInvertsHidToVk(s.key, HidToVk(s.key));
    ShiftHeld(s.modifier);
  }

  lemma StrokeHasVk(c: char)
    requires TypedStroke(c).Some?
    ensures HidToVk(TypedStroke(c).value.key) != 0
  {
  }

  lemma ShiftHeld(modifier: int)
    requires modifier == MOD_NONE || modifier == MOD_LSHIFT
    ensures HeldModifiers(modifier) == if modifier == MOD_LSHIFT then {LSHIFT_VK} else {}
  {
    assert MOD_VK[1] == (0x02, 0xA0);
    forall i | 0 <= i < 8 ensures HasBit(modifier, MOD_VK[i].0) <==> i == 1 && modifier == MOD_LSHIFT {
      assert MOD_VK[i].0 == [0x01, 0x02, 0x04, 0x08, 0x10, 0x20, 0x40, 0x80][i];
    }
  }

  // ---------------------------------------------------------------------
  // Whole texts
  // ---------------------------------------------------------------------

  lemma CharReports(c: char)
    ensures ReportsIn(CharPackets(c))
            == match TypedStroke(c)
               case None => []
               case Some(s) => (StrokeBytes(c); [KeyReport(s.modifier, s.key), KeyReport(0, 0)])
  {
    if TypedStroke(c).Some? {
      StrokeBytes(c);
      StrokeReports(TypedStroke(c).value.modifier, TypedStroke(c).value.key);
    }
  }

  lemma LastBatch(reports: seq<Report>, r: Report, events: seq<KeyEvent>)
    returns (before: seq<KeyEvent>, batch: seq<KeyEvent>)
    requires WindowsSession(reports + [r], events)
    ensures WindowsSession(reports, before) && events == before + batch && WindowsBatch(LastKeys(reports), r, batch)
  {
    var all := reports + [r];
    assert all[..|all| - 1] == reports;
    var n :| 0 <= n <= |events| && WindowsSession(reports, events[..n])
        && WindowsBatch(LastKeys(reports), r, events[n..]);
    before, batch := events[..n], events[n..];
  }

  /** A session that ends in two more reports splits into the session before and two batches. */
  lemma LastTwoBatches(reports: seq<Report>, r1: Report, r2: Report, events: seq<KeyEvent>)
    returns (before: seq<KeyEvent>, b1: seq<KeyEvent>, b2: seq<KeyEvent>)
    requires WindowsSession(reports + [r1, r2], events)
    ensures WindowsSession(reports, before) && events == before + b1 + b2
    ensures WindowsBatch(LastKeys(reports), r1, b1) && WindowsBatch(KeysOf(r1), r2, b2)
  {
    assert reports + [r1, r2] == reports + [r1] + [r2];
    var front;
    front, b2 := LastBatch(reports + [r1], r2, events);
    before, b1 := LastBatch(reports, r1, front);
  }

  lemma TextReports(text: string)
    requires text != []
    ensures var before, c := ReportsIn(TextPackets(text[..|text| - 1])), text[|text| - 1];
            ReportsIn(TextPackets(text))
            == match TypedStroke(c)
               case None => before
               case Some(s) => (StrokeBytes(c); before + [KeyReport(s.modifier, s.key), KeyReport(0, 0)])
  {
    var init, c := text[..|text| - 1], text[|text| - 1];
    ReportsConcat(TextPackets(init), CharPackets(c));
    CharReports(c);
  }

  lemma {:induction false} TypingLeavesNothingHeld(text: string)
    ensures LastKeys(ReportsIn(TextPackets(text))) == {}
    ensures ReportsIn(TextPackets(text)) != [] ==>
              ReportsIn(TextPackets(text))[|ReportsIn(TextPackets(text))| - 1] == KeyReport(0, 0)
  {
    if text == [] {
    } else {
      var init, c := text[..|text| - 1], text[|text| - 1];
      TypingLeavesNothingHeld(init);
      TextReports(text);
      KeyReportKeys(0, 0);
    }
  }

  lemma NothingHeld(text: string, events: seq<KeyEvent>)
    requires WindowsSession(ReportsIn(TextPackets(text)), events)
    ensures Replay({}, events) == {}
  {
    WindowsRefinesFullState(ReportsIn(TextPackets(text)), events);
    TypingLeavesNothingHeld(text);
    ShiftHeld(0);
  }

  /** The two batches of one stroke, with nothing held before, read back as its character. */
  lemma StrokeDecodes(c: char, s: KeyStroke, before: seq<KeyEvent>, b1: seq<KeyEvent>, b2: seq<KeyEvent>)
    requires TypedStroke(c) == Some(s) && 0 < s.key < 256 && 0 <= s.modifier < 256
    requires Replay({}, before) == {}
    requires WindowsBatch({}, KeyReport(s.modifier, s.key), b1)
    requires WindowsBatch(KeysOf(KeyReport(s.modifier, s.key)), KeyReport(0, 0), b2)
    ensures Decoded({}, before + b1 + b2) == Decoded({}, before) + Rendered(c)
  {
    StrokeReadsBack(c);
    PressDecodes(s.modifier, s.key, b1);
    KeyReportKeys(0, 0);
    NoNewKeyIsSilent(KeysOf(KeyReport(s.modifier, s.key)), KeyReport(0, 0), Replay({}, before + b1), b2);
    DecodedConcat({}, before + b1, b2);
    DecodedConcat({}, before, b1);
  }

  lemma {:induction false} RoundTrip(text: string, events: seq<KeyEvent>)
    requires WindowsSession(ReportsIn(TextPackets(text)), events)
    ensures Decoded({}, events) == RenderedText(text)
  {
    if text == [] {
    } else {
      var init, c := text[..|text| - 1], text[|text| - 1];
      TextReports(text);
      var reports := ReportsIn(TextPackets(init));
      TablesAgree(c);
      match TypedStroke(c) {
        case None =>
          RoundTrip(init, events);
        case Some(s) =>
          StrokeBytes(c);
          var before, b1, b2 := LastTwoBatches(reports, KeyReport(s.modifier, s.key), KeyReport(0, 0), events);
          RoundTrip(init, before);
          TypingLeavesNothingHeld(init);
          NothingHeld(init, before);
          StrokeDecodes(c, s, before, b1, b2);
      }
    }
  }

  /** The typing round trip, for every string and every order in which the
      injector may visit its key sets: what arrives is the rendered text, which is
      the text less the characters the US layout does not have exactly when the
      Kelvin sign is not in it; and nothing stays held. */
  lemma TypingRoundTrip(text: string, events: seq<KeyEvent>)
    requires WindowsSession(ReportsIn(TextPackets(text)), events)
    ensures Decoded({}, events) == RenderedText(text)
    ensures Decoded({}, events) == Supported(text) <==> KELVIN !in text
    ensures Replay({}, events) == {}
  {
    RoundTrip(text, events);
    NothingHeld(text, events);
    RenderedIsSupported(text);
  }

  /** A node that has received exactly a text's packets has shown the text. */
  lemma NodeShowsText(node: DesktopSoftNode, text: string)
    requires node.Valid() && node.received == TextPackets(text)
    ensures Decoded({}, node.hid.sent) == RenderedText(text)
  {
    TypingRoundTrip(text, node.hid.sent);
  }

  // ---------------------------------------------------------------------
  // The same text on macOS
  // ---------------------------------------------------------------------

  /** macOS gets no modifier events; so every key is read unshifted. */
  ghost function MacCharsOf(e: KeyEvent): string {
    if !e.down then ""
    else match MacToHid(e.vk)
      case None => ""
      case Some(key) =>
        match UsChar(key, false)
        case None => ""
        case Some(c) => [c]
  }

  ghost function MacDecoded(events: seq<KeyEvent>): string {
    if events == [] then "" else MacDecoded(events[..|events| - 1]) + MacCharsOf(events[|events| - 1])
  }

  /** The characters macOS gets right: unshifted, and on a key in the short macOS map. */
  predicate MacFaithful(c: char) {
    'a' <= c <= 'z' || '0' <= c <= '9' || c == ' ' || c == '\n' || c == '\t'
  }

  /** What one character comes out as: nothing if its key is not in the map,
      else the unshifted character of its key. */
  function MacRendered(c: char): string {
    match TypedStroke(c)
    case None => ""
    case Some(s) =>
      if HidToMac(s.key) == None then ""
      else match UsChar(s.key, false)
        case None => ""
        case Some(plain) => [plain]
  }

  function MacRenderedText(text: string): string {
    if text == [] then "" else MacRenderedText(text[..|text| - 1]) + MacRendered(text[|text| - 1])
  }

  lemma {:induction false} MacDecodedConcat(a: seq<KeyEvent>, b: seq<KeyEvent>)
    ensures MacDecoded(a + b) == MacDecoded(a) + MacDecoded(b)
  {
    if b == [] {
      assert a + b == a;
    } else {
      assert (a + b)[..|a + b| - 1] == a + b[..|b| - 1];
      MacDecodedConcat(a, b[..|b| - 1]);
    }
  }

  lemma {:induction false} MacUpsAreSilent(events: seq<KeyEvent>)
    requires Uniform(events, false)
    ensures MacDecoded(events) == ""
  {
    if events == [] {
    } else {
      forall e | e in events[..|events| - 1] ensures e in events {}
      MacUpsAreSilent(events[..|events| - 1]);
    }
  }

  lemma MacPressBatchShape(modifier: Byte, key: Byte, batch: seq<KeyEvent>)
    requires MacBatch({}, KeyReport(modifier, key), batch) && key != 0
    ensures batch == match HidToMac(key) case None => [] case Some(code) => [KeyEvent(code, true)]
  {
    var r := KeyReport(modifier, key);
    KeyReportKeys(modifier, key);
    var pressed, released :|
      && Enumerates(pressed, KeysOf(r) - {}) && Enumerates(released, {} - KeysOf(r))
      && batch == MacEvents(pressed, true) + MacEvents(released, false);
    assert {} - KeysOf(r) == {} && KeysOf(r) - {} == {key};
    EnumeratesEmpty(released);
    EnumeratesSingleton(pressed, key);
    assert [key][..0] == [];
    assert MacEvents([key], true) == match HidToMac(key) case None => [] case Some(code) => [KeyEvent(code, true)];
  }

  lemma MacPressDecodes(c: char, s: KeyStroke, batch: seq<KeyEvent>)
    requires TypedStroke(c) == Some(s) && 0 < s.key < 256 && 0 <= s.modifier < 256
    requires MacBatch({}, KeyReport(s.modifier, s.key), batch)
    ensures MacDecoded(batch) == MacRendered(c)
  {
    MacPressBatchShape(s.modifier, s.key, batch);
    match HidToMac(s.key) {
      case None =>
      case Some(code) =>
        MacToHidInvertsHidToMac(s.key, code);
        OneMacEventDecodes(KeyEvent(code, true));
    }
  }

  lemma OneMacEventDecodes(e: KeyEvent)
    ensures MacDecoded([e]) == MacCharsOf(e)
  {
    assert [e][..0] == [];
  }

  lemma MacReleaseDecodes(prev: set<int>, batch: seq<KeyEvent>)
    requires MacBatch(prev, KeyReport(0, 0), batch)
    ensures MacDecoded(batch) == ""
  {
    var r := KeyReport(0, 0);
    KeyReportKeys(0, 0);
    var pressed, released :|
      && Enumerates(pressed, KeysOf(r) - prev) && Enumerates(released, prev - KeysOf(r))
      && batch == MacEvents(pressed, true) + MacEvents(released, false);
    assert KeysOf(r) - prev == {};
    EnumeratesEmpty(pressed);
    MacEventsTouch(released, false);
    assert batch == MacEvents(released, false);
    MacUpsAreSilent(batch);
  }

  lemma MacLastBatch(reports: seq<Report>, r: Report, events: seq<KeyEvent>)
    returns (before: seq<KeyEvent>, batch: seq<KeyEvent>)
    requires MacSession(reports + [r], events)
    ensures MacSession(reports, before) && events == before + batch && MacBatch(LastKeys(reports), r, batch)
  {
    var all := reports + [r];
    assert all[..|all| - 1] == reports;
    var n :| 0 <= n <= |events| && MacSession(reports, events[..n]) && MacBatch(LastKeys(reports), r, events[n..]);
    before, batch := events[..n], events[n..];
  }

  /** A session that ends in two more reports splits into the session before and two batches. */
  lemma MacLastTwoBatches(reports: seq<Report>, r1: Report, r2: Report, events: seq<KeyEvent>)
    returns (before: seq<KeyEvent>, b1: seq<KeyEvent>, b2: seq<KeyEvent>)
    requires MacSession(reports + [r1, r2], events)
    ensures MacSession(reports, before) && events == before + b1 + b2
    ensures MacBatch(LastKeys(reports), r1, b1) && MacBatch(KeysOf(r1), r2, b2)
  {
    assert reports + [r1, r2] == reports + [r1] + [r2];
    var front;
    front, b2 := MacLastBatch(reports + [r1], r2, events);
    before, b1 := MacLastBatch(reports, r1, front);
  }

  /** What a macOS node shows for every text. */
  lemma {:induction false} MacTyping(text: string, events: seq<KeyEvent>)
    requires MacSession(ReportsIn(TextPackets(text)), events)
    ensures MacDecoded(events) == MacRenderedText(text)
  {
    if text == [] {
    } else {
      var init, c := text[..|text| - 1], text[|text| - 1];
      TextReports(text);
      var reports := ReportsIn(TextPackets(init));
      match TypedStroke(c) {
        case None =>
          MacTyping(init, events);
        case Some(s) =>
          StrokeBytes(c);
          var before, b1, b2 := MacLastTwoBatches(reports, KeyReport(s.modifier, s.key), KeyReport(0, 0), events);
          MacTyping(init, before);
          TypingLeavesNothingHeld(init);
          MacPressDecodes(c, s, b1);
          MacReleaseDecodes(KeysOf(KeyReport(s.modifier, s.key)), b2);
          MacDecodedConcat(before + b1, b2);
          MacDecodedConcat(before, b1);
      }
    }
  }

  lemma MacRenderedChar(c: char)
    ensures |MacRendered(c)| <= |Rendered(c)|
    ensures MacRendered(c) == Rendered(c) <==> (Rendered(c) == "" || MacFaithful(c))
  {
    TablesAgree(c);
    if TypedStroke(c).Some? {
      StrokeBytes(c);
      MacRenderedStroke(c, TypedStroke(c).value);
    }
  }

  lemma MacRenderedStroke(c: char, s: KeyStroke)
    requires TypedStroke(c) == Some(s)
    ensures |MacRendered(c)| <= 1
    ensures MacRendered(c) == Rendered(c) <==> MacFaithful(c)
  {
    TablesAgree(c);
    var c' := if c == KELVIN then 'K' else c;
    if UsChar(s.key, false).Some? {
      UsCharInvertsUsStroke(UsChar(s.key, false).value, s.key, false);
    }
    UsCharInvertsUsStroke(c', s.key, s.modifier == MOD_LSHIFT);
    MacMapped(c, s);
  }

  lemma MacMapped(c: char, s: KeyStroke)
    requires TypedStroke(c) == Some(s)
    ensures s.modifier == MOD_NONE && HidToMac(s.key).Some? <==> MacFaithful(c)
  {
  }

  lemma {:induction false} MacRenderedShorter(text: string)
    ensures |MacRenderedText(text)| <= |RenderedText(text)|
    ensures |MacRenderedText(text)| == |RenderedText(text)| ==>
              (MacRenderedText(text) == RenderedText(text)
               <==> forall c | c in text :: Rendered(c) == "" || MacFaithful(c))
  {
    if text == [] {
    } else {
      var init, c := text[..|text| - 1], text[|text| - 1];
      MacRenderedShorter(init);
      MacRenderedChar(c);
      assert forall x :: x in text <==> x in init || x == c;
      var m, r := MacRenderedText(init), RenderedText(init);
      if |m + MacRendered(c)| == |r + Rendered(c)| {
        assert |m| == |r| && |MacRendered(c)| == |Rendered(c)|;
        assert (m + MacRendered(c))[..|m|] == m && (r + Rendered(c))[..|r|] == r;
        assert (m + MacRendered(c))[|m|..] == MacRendered(c) && (r + Rendered(c))[|r|..] == Rendered(c);
      }
    }
  }

  /** A macOS node shows what a Windows node would exactly when every supported
      character of the text is unshifted and in the short macOS map. */
  lemma MacTypingFaithful(text: string, events: seq<KeyEvent>)
    requires MacSession(ReportsIn(TextPackets(text)), events)
    ensures MacDecoded(events) == RenderedText(text)
            <==> forall c | c in text && Rendered(c) != "" :: MacFaithful(c)
  {
    MacTyping(text, events);
    MacRenderedShorter(text);
    if forall c | c in text && Rendered(c) != "" :: MacFaithful(c) {
      MacRenderedSame(text);
    }
  }

  lemma {:induction false} MacRenderedSame(text: string)
    requires forall c | c in text && Rendered(c) != "" :: MacFaithful(c)
    ensures MacRenderedText(text) == RenderedText(text)
  {
    if text == [] {
    } else {
      var init, c := text[..|text| - 1], text[|text| - 1];
      assert c in text;
      forall x | x in init ensures x in text {}
      MacRenderedSame(init);
      MacRenderedChar(c);
    }
  }
}
