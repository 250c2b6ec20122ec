/**
 The controller's input actions (controller/agent_engine.py, AgentEngine): text,
 clicks and drags become UDP packets, one byte of packet type followed by a HID
 report. The evdev branches write to a local device instead and are not modelled.
 */
module Controller {
  import opened Options
  import opened HidTables
  import opened HidInjector
  import opened Integers

  type Packet = seq<Byte>

  const KEYBOARD: Byte := 0x01
  const MOUSE: Byte := 0x02

  // ---------------------------------------------------------------------
  // Keyboard packets
  // ---------------------------------------------------------------------

  function KeyReport(modifier: Byte, key: Byte): Report {
    [modifier, 0, key, 0, 0, 0, 0, 0]
  }

  /** One stroke is a press followed at once by an all-released report. */
  function StrokePackets(modifier: Byte, key: Byte): seq<Packet> {
    [[KEYBOARD] + KeyReport(modifier, key), [KEYBOARD] + KeyReport(0, 0)]
  }

  lemma StrokeIsBytes(modifier: Byte, key: Byte)
    ensures StrokePackets(modifier, key)
            == [[1, modifier, 0, key, 0, 0, 0, 0, 0], [1, 0, 0, 0, 0, 0, 0, 0, 0]]
  {
    assert [KEYBOARD] + KeyReport(modifier, key) == [1, modifier, 0, key, 0, 0, 0, 0, 0];
    assert [KEYBOARD] + KeyReport(0, 0) == [1, 0, 0, 0, 0, 0, 0, 0, 0];
  }

  lemma StrokeBytes(c: char)
    requires TypedStroke(c).Some?
    ensures 0 < TypedStroke(c).value.key < 256
    ensures TypedStroke(c).value.modifier == MOD_NONE || TypedStroke(c).value.modifier == MOD_LSHIFT
  {
  }

  function CharPackets(c: char): seq<Packet> {
    match TypedStroke(c)
    case Some(stroke) => StrokeBytes(c); StrokePackets(stroke.modifier, stroke.key)
    case None => []
  }

  function TextPackets(text: string): seq<Packet> {
    if text == [] then []
    else TextPackets(text[..|text| - 1]) + CharPackets(text[|text| - 1])
  }

  // ---------------------------------------------------------------------
  // Mouse packets
  // ---------------------------------------------------------------------

  /** `int(a / b)`: division that truncates towards zero. Below 2^53 the floating
      quotient of two integers never rounds onto an integer it does not equal. */
  function TruncDiv(a: int, b: int): int
    requires b > 0
  {
    if a >= 0 then a / b else -((-a) / b)
  }

  /** A pixel on the 0..32767 absolute axis. */
  function ToAxis(x: int, width: int): int {
    TruncDiv(x * 32767, if width > 1 then width else 1)
  }

  function LowByte(v: int): Byte { v % 256 }

  function HighByte(v: int): Byte { v / 256 % 256 }

  /** `int.from_bytes(..., "little")` on two bytes. */
  function FromBytes(low: Byte, high: Byte): int { low + 256 * high }

  function MousePacket(x: int, y: int, width: int, height: int, buttons: Byte): Packet {
    var ax, ay := ToAxis(x, width), ToAxis(y, height);
    [MOUSE, buttons, LowByte(ax), HighByte(ax), LowByte(ay), HighByte(ay), 0]
  }

  /** What a mouse packet says: its type, its buttons, no wheel, and on each axis
      the low sixteen bits of the position, low byte first. */
  predicate Carries(p: Packet, buttons: Byte, ax: int, ay: int) {
    && |p| == 7 && p[0] == 2 && p[1] == buttons && p[6] == 0
    && p[2] as int + 256 * (p[3] as int) == ax % 65536
    && p[4] as int + 256 * (p[5] as int) == ay % 65536
  }

  lemma TwoBytes(v: int)
    ensures FromBytes(LowByte(v), HighByte(v)) == v % 65536
  {
  }

  lemma PacketCarries(x: int, y: int, width: int, height: int, buttons: Byte)
    ensures Carries(MousePacket(x, y, width, height, buttons), buttons, ToAxis(x, width), ToAxis(y, height))
  {
    TwoBytes(ToAxis(x, width));
    TwoBytes(ToAxis(y, height));
  }

  // ---------------------------------------------------------------------
  // Drag path
  // ---------------------------------------------------------------------

  function DragSteps(dx: int, dy: int): nat {
    var wanted := Abs(dx) / 10 + Abs(dy) / 10;
    if wanted > 10 then wanted else 10
  }

  /** The i-th interpolated coordinate; Dafny's `/` is Python's `//` for a positive divisor. */
  function Interpolate(start: int, end: int, i: nat, steps: nat): int
    requires steps > 0
  {
    start + (end - start) * i / steps
  }

  datatype Drag = Drag(x: int, y: int, ex: int, ey: int) {
    function Steps(): (n: nat)
      ensures n >= 10
    {
      DragSteps(ex - x, ey - y)
    }

    function Point(i: nat): (int, int) {
      (Interpolate(x, ex, i, Steps()), Interpolate(y, ey, i, Steps()))
    }
  }

  /** Packets for the first n interpolated points, button held. */
  function PathPackets(d: Drag, width: int, height: int, n: nat): seq<Packet> {
    if n == 0 then []
    else PathPackets(d, width, height, n - 1) + [MousePacket(d.Point(n).0, d.Point(n).1, width, height, 1)]
  }

  function DragPackets(d: Drag, width: int, height: int): seq<Packet> {
    [MousePacket(d.x, d.y, width, height, 0), MousePacket(d.x, d.y, width, height, 1)]
    + PathPackets(d, width, height, d.Steps())
    + [MousePacket(d.ex, d.ey, width, height, 0)]
  }

  // ---------------------------------------------------------------------
  // Clicks
  // ---------------------------------------------------------------------

  function OneClick(x: int, y: int, width: int, height: int, button: Byte): seq<Packet> {
    [MousePacket(x, y, width, height, 0), MousePacket(x, y, width, height, button), MousePacket(x, y, width, height, 0)]
  }

  function Clicks(x: int, y: int, width: int, height: int, button: Byte, count: nat): seq<Packet> {
    if count == 0 then [] else Clicks(x, y, width, height, button, count - 1) + OneClick(x, y, width, height, button)
  }

  function ClickPackets(x: int, y: int, width: int, height: int, button: Byte, count: nat,
                        modifier: Byte): seq<Packet> {
    StrokeIf(modifier != 0, modifier) + Clicks(x, y, width, height, button, count) + StrokeIf(modifier != 0, 0)
  }

  /** A stroke of modifiers alone, if there are any. */
  function StrokeIf(any: bool, modifier: Byte): seq<Packet> {
    if any then StrokePackets(modifier, 0) else []
  }

  lemma Regroup(a: seq<Packet>, b: seq<Packet>, c: seq<Packet>, d: seq<Packet>)
    ensures ((a + b) + c) + d == a + (b + c + d)
  {
  }

  class AgentEngine {
    ghost var sent: seq<Packet>  // datagrams sent to the node, in order

    constructor ()
      ensures sent == []
    {
      sent := [];
    }

    method SendKey(key: Byte, modifier: Byte)
      modifies this
      ensures sent == old(sent) + StrokePackets(modifier, key)
      ensures sent == old(sent) + [[1, modifier, 0, key, 0, 0, 0, 0, 0], [1, 0, 0, 0, 0, 0, 0, 0, 0]]
    {
      sent := sent + [[KEYBOARD] + KeyReport(modifier, key)];
      sent := sent + [[KEYBOARD] + KeyReport(0, 0)];
      StrokeIsBytes(modifier, key);
    }

    method SendMouse(x: int, y: int, width: int, height: int, buttons: Byte)
      modifies this
      ensures sent == old(sent) + [MousePacket(x, y, width, height, buttons)]
      ensures Carries(sent[|sent| - 1], buttons, ToAxis(x, width), ToAxis(y, height))
    {
      sent := sent + [MousePacket(x, y, width, height, buttons)];
      PacketCarries(x, y, width, height, buttons);
    }

    /** Types every character that has a stroke and skips the others; only an
        empty text is an error. */
    method DoType(text: string) returns (success: bool)
      modifies this
      ensures success <==> text != []
      ensures sent == old(sent) + TextPackets(text)
    {
      if text == [] {
        return false;
      }
      for i := 0 to |text|
        invariant sent == old(sent) + TextPackets(text[..i])
      {
        assert text[..i + 1][..i] == text[..i];
        var ch := text[i];
        var lch := Lower(ch);
        if CharToHid(lch).Some? {
          StrokeBytes(ch);
          SendKey(CharToHid(lch).value, if IsUpperLetter(ch) then MOD_LSHIFT else MOD_NONE);
        } else if ShiftChars(ch).Some? {
          StrokeBytes(ch);
          SendKey(ShiftChars(ch).value, MOD_LSHIFT);
        }
      }
      assert text[..|text|] == text;
      success := true;
    }

    method DoMouseDrag(x: int, y: int, ex: int, ey: int, width: int, height: int)
      modifies this
      ensures sent == old(sent) + DragPackets(Drag(x, y, ex, ey), width, height)
    {
      ghost var d, before := Drag(x, y, ex, ey), sent;
      SendMouse(x, y, width, height, 0);
      SendMouse(x, y, width, height, 1);
      ghost var start := [MousePacket(x, y, width, height, 0), MousePacket(x, y, width, height, 1)];
      assert sent == before + start;
      SendPath(x, y, ex, ey, width, height);
      SendMouse(ex, ey, width, height, 0);
      Regroup(before, start, PathPackets(d, width, height, d.Steps()), [MousePacket(ex, ey, width, height, 0)]);
    }

    method SendPath(x: int, y: int, ex: int, ey: int, width: int, height: int)
      modifies this
      ensures var d := Drag(x, y, ex, ey); sent == old(sent) + PathPackets(d, width, height, d.Steps())
    {
      ghost var d := Drag(x, y, ex, ey);
      var wanted := Abs(ex - x) / 10 + Abs(ey - y) / 10;
      var steps := if wanted > 10 then wanted else 10;
      var i := 1;
      while i < steps + 1
        invariant 1 <= i <= steps + 1
        invariant sent == old(sent) + PathPackets(d, width, height, i - 1)
      {
        var cx := Interpolate(x, ex, i, steps);
        var cy := Interpolate(y, ey, i, steps);
        assert (cx, cy) == d.Point(i);
        SendMouse(cx, cy, width, height, 1);
        i := i + 1;
      }
    }

    method SendModifier(any: bool, modifier: Byte)
      modifies this
      ensures sent == old(sent) + StrokeIf(any, modifier)
    {
      if any {
        SendKey(0, modifier);
      }
    }

    method ClickOnce(x: int, y: int, width: int, height: int, button: Byte)
      modifies this
      ensures sent == old(sent) + OneClick(x, y, width, height, button)
    {
      SendMouse(x, y, width, height, 0);
      SendMouse(x, y, width, height, button);
      SendMouse(x, y, width, height, 0);
    }

    method ClickRepeatedly(x: int, y: int, width: int, height: int, button: Byte, count: nat)
      modifies this
      ensures sent == old(sent) + Clicks(x, y, width, height, button, count)
    {
      for n := 0 to count
        invariant sent == old(sent) + Clicks(x, y, width, height, button, n)
      {
        ClickOnce(x, y, width, height, button);
      }
    }

    /** `target` is the point the arguments resolve to, if they resolve. */
    method DoClick(target: Option<(int, int)>, width: int, height: int, button: Byte, count: nat, modifier: Byte)
      returns (success: bool)
      modifies this
      ensures success <==> target.Some?
      ensures sent == old(sent) + match target
                                  case None => []
                                  case Some((x, y)) => ClickPackets(x, y, width, height, button, count, modifier)
    {
      if target == None {
        return false;
      }
      var (x, y) := target.value;
      ghost var before := sent;
      SendModifier(modifier != 0, modifier);
      ClickRepeatedly(x, y, width, height, button, count);
      SendModifier(modifier != 0, 0);
      ghost var lead, clicks := StrokeIf(modifier != 0, modifier), Clicks(x, y, width, height, button, count);
      Regroup(before, lead, clicks, StrokeIf(modifier != 0, 0));
      success := true;
    }
  }

  // ---------------------------------------------------------------------
  // The receiving node
  // ---------------------------------------------------------------------

  /** `_on_packet`: the keyboard report a datagram carries, if it is one. */
  function ReportIn(data: Packet): Option<Report> {
    if |data| >= 9 && data[0] == KEYBOARD then Some(data[1..9]) else None
  }

  /** The keyboard reports in a run of datagrams. */
  function ReportsIn(packets: seq<Packet>): seq<Report> {
    if packets == [] then []
    else
      ReportsIn(packets[..|packets| - 1]) +
      match ReportIn(packets[|packets| - 1])
      case Some(r) => [r]
      case None => []
  }

  class DesktopSoftNode {
    const hid: HidInjectorWindows
    ghost var received: seq<Packet>

    ghost predicate Valid()
      reads this, hid
    {
      hid.Valid() && hid.reports == ReportsIn(received)
    }

    constructor (hid: HidInjectorWindows)
      requires hid.Valid() && hid.reports == []
      ensures Valid() && this.hid == hid && received == []
    {
      this.hid := hid;
      received := [];
    }

    /** A packet of type 1 with at least eight more bytes is a keyboard report;
        anything else leaves the keyboard untouched. */
    method OnPacket(data: Packet)
      requires Valid()
      modifies this, hid
      ensures Valid() && received == old(received) + [data]
      ensures |data| >= 9 && data[0] == 1 ==> hid.reports == old(hid.reports) + [data[1..9]]
      ensures |data| < 9 || data[0] != 1 ==>
                hid.reports == old(hid.reports) && hid.sent == old(hid.sent) && hid.prevKeys == old(hid.prevKeys)
    {
      received := received + [data];
      assert received[..|received| - 1] == old(received);
      if |data| < 2 {
        return;
      }
      var payload := data[1..];
      if data[0] == KEYBOARD && |payload| >= 8 {
        assert payload[..8] == data[1..9];
        hid.InjectKeyboard(payload[..8]);
      }
    }
  }
}
