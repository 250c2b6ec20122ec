/**
 Pointer coordinates end to end: pixels become positions on a 0..32767 axis and
 two little-endian bytes (controller/agent_engine.py), and the agent turns those
 back into screen positions (agent/ozma_desktop_agent.py).
 */
module Pointer {
  import opened Options
  import opened HidInjector
  import opened Controller
  import opened Integers
  import Typing

  // ---------------------------------------------------------------------
  // One axis
  // ---------------------------------------------------------------------

  function Received(v: int): int { FromBytes(LowByte(v), HighByte(v)) }

  /** The position SendInput gets, 0..65535; out-of-range input goes to 0. */
  function WindowsAbs(v: int): int
    requires v >= 0
  {
    if v <= 32767 then v * 65535 / 32767 else 0
  }

  /** The pixel CGEvent gets. */
  function MacPixel(v: int, width: int): real {
    (v * width) as real / 32767.0
  }

  /** The wire carries 16 bits. */
  lemma ReceivedIsModulo(v: int)
    ensures Received(v) == v % 65536
  {
    TwoBytes(v);
  }

  lemma QuotientAtLeast(a: int, n: int, q: int)
    requires n > 0
    ensures a / n >= q <==> a >= q * n
  {
    assert a == (a / n) * n + a % n;
    if a / n >= q {
      assert (a / n) * n >= q * n;
    } else {
      assert (a / n + 1) * n <= q * n;
    }
  }

  lemma Division(a: int, n: int)
    requires n > 0
    ensures a / n * n <= a < a / n * n + n
  {
    assert a == (a / n) * n + a % n;
  }

  lemma AxisBounds(x: int, width: int)
    requires 0 <= x < width
    ensures 0 <= ToAxis(x, width) < 32767
    ensures ToAxis(x, width) * width <= x * 32767 < ToAxis(x, width) * width + width
  {
    Division(x * 32767, width);
    QuotientAtLeast(x * 32767, width, 0);
    QuotientAtLeast(x * 32767, width, 32767);
  }

  /** A pixel sent and decoded at the same width comes back at most one pixel
      short, so rounding up recovers it, whenever the width fits the axis. */
  lemma PixelRoundTrip(x: int, width: int)
    requires 0 <= x < width <= 32767
    ensures var px := MacPixel(Received(ToAxis(x, width)), width);
            (x - 1) as real < px <= x as real
  {
    AxisBounds(x, width);
    var v := ToAxis(x, width);
    ReceivedIsModulo(v);
    assert (x - 1) * 32767 < v * width <= x * 32767;
    Quotient(v * width, x);
  }

  lemma Quotient(a: int, x: int)
    requires (x - 1) * 32767 < a <= x * 32767
    ensures (x - 1) as real < a as real / 32767.0 <= x as real
  {
  }

  lemma DivMonotone(a: int, b: int, n: int)
    requires a <= b && n > 0
    ensures a / n <= b / n
  {
    assert a == (a / n) * n + a % n;
    QuotientAtLeast(b, n, a / n);
  }

  /** Distinct pixels get distinct positions exactly when the frame is no wider than the axis. */
  lemma EncodingInjective(width: int)
    requires width >= 1
    ensures (forall x1, x2 | 0 <= x1 < x2 < width :: ToAxis(x1, width) != ToAxis(x2, width)) <==> width <= 32767
  {
    if width <= 32767 {
      forall x1, x2 | 0 <= x1 < x2 < width ensures ToAxis(x1, width) != ToAxis(x2, width) {
        AxisBounds(x1, width);
        AxisBounds(x2, width);
        var next := ToAxis(x1, width) + 1;
        assert next * width <= x1 * 32767 + width <= x2 * 32767;
        QuotientAtLeast(x2 * 32767, width, next);
      }
    } else {
      assert ToAxis(0, width) == 0 && ToAxis(1, width) == 0;
    }
  }

  /** The Windows rescale is strictly increasing on the axis and onto its ends. */
  lemma WindowsRescale(v1: int, v2: int)
    requires 0 <= v1 < v2 <= 32767
    ensures WindowsAbs(v1) < WindowsAbs(v2)
    ensures WindowsAbs(0) == 0 && WindowsAbs(32767) == 65535
    ensures WindowsAbs(v1) * 32767 <= v1 * 65535 < WindowsAbs(v1) * 32767 + 32767
  {
    Division(v1 * 65535, 32767);
    assert v2 * 65535 >= v1 * 65535 + 65535;
    DivMonotone(v1 * 65535 + 32767, v2 * 65535, 32767);
  }

  /** Where Windows shows a pixel of a screen this wide, after the wire. */
  function OnWindows(x: int, width: int): int {
    WindowsAbs(Received(ToAxis(x, width)))
  }

  lemma AxisMonotone(x1: int, x2: int, width: int)
    requires x1 <= x2
    ensures ToAxis(x1, width) <= ToAxis(x2, width)
  {
    var w := Max(width, 1);
    if x1 >= 0 {
      DivMonotone(x1 * 32767, x2 * 32767, w);
    } else if x2 < 0 {
      DivMonotone(-(x2 * 32767), -(x1 * 32767), w);
    } else {
      QuotientAtLeast(-(x1 * 32767), w, 0);
      QuotientAtLeast(x2 * 32767, w, 0);
    }
  }

  lemma AbsIsZero(v: int)
    requires v >= 0
    ensures WindowsAbs(v) == 0 <==> v == 0 || v >= 32768
  {
    if 0 < v <= 32767 { WindowsRescale(0, v); }
  }

  lemma DivShift(a: int, k: int, n: int)
    requires n > 0
    ensures (a + k * n) / n == a / n + k
  {
    var q := a / n;
    assert a == q * n + a % n;
    assert (q + k) * n == q * n + k * n;
    assert (q + k + 1) * n == q * n + k * n + n;
    QuotientAtLeast(a + k * n, n, q + k);
    QuotientAtLeast(a + k * n, n, q + k + 1);
  }

  /** Sixteen bits of a quotient are the quotient of a remainder. */
  lemma SixteenBits(a: int, w: int)
    requires a >= 0 && w > 0
    ensures 0 <= a % (65536 * w) < 65536 * w
    ensures (a / w) % 65536 == (a % (65536 * w)) / w
  {
    var n := 65536 * w;
    var p, m := a / n, a % n;
    assert a == p * n + m;
    assert p * n == (p * 65536) * w;
    DivShift(m, p * 65536, w);
    QuotientAtLeast(m, w, 0);
    QuotientAtLeast(m, w, 65536);
  }

  /** A pixel's distance from column 0 in axis units times the width, less whole
      turns of the 16-bit wire. */
  function Reach(x: int, width: int): int {
    Abs(x) * 32767 % (65536 * Max(width, 1))
  }

  /** Which columns, on the screen or off it, Windows shows at column 0. To the
      right the axis ends after 32767 and the wire after 65535, so positions go
      to 0 and then come round again; to the left they start in the upper half. */
  lemma OffscreenSnapsToZero(x: int, width: int)
    ensures var w, m := Max(width, 1), Reach(x, width);
            OnWindows(x, width) == 0 <==> if x >= 0 then m < w || 32768 * w <= m else m < 32769 * w
  {
    var w, a := Max(width, 1), Abs(x) * 32767;
    var m := Reach(x, width);
    SixteenBits(a, w);
    QuotientAtLeast(m, w, 1);
    QuotientAtLeast(m, w, 32768);
    QuotientAtLeast(m, w, 32769);
    QuotientAtLeast(m, w, 0);
    ReceivedIsModulo(ToAxis(x, width));
    AbsIsZero(Received(ToAxis(x, width)));
    if x < 0 {
      NegatedModulo(a / w);
    }
  }

  lemma NegatedModulo(q: int)
    ensures (-q) % 65536 == if q % 65536 == 0 then 0 else 65536 - q % 65536
  {
  }

  /** Within two screens of column 0 no turn is completed: a point past the right
      edge goes to 0, one past the left edge only while it is about a screen away. */
  lemma NearbySnapsToZero(x: int, width: int)
    requires width >= 1 && -2 * width < x < 2 * width
    ensures OnWindows(x, width) == 0 <==>
            if x >= 0 then x * 32767 < width || 32768 * width <= x * 32767 else -32769 * width < x * 32767
  {
    OffscreenSnapsToZero(x, width);
    assert Abs(x) * 32767 < 65536 * width;
    SmallModulo(Abs(x) * 32767, 65536 * width);
  }

  lemma SmallModulo(a: int, n: int)
    requires 0 <= a < n
    ensures a % n == a
  {
  }

  // ---------------------------------------------------------------------
  // Drag path
  // ---------------------------------------------------------------------

  lemma ProductMonotone(d: int, i: int, j: int)
    requires i <= j
    ensures d >= 0 ==> d * i <= d * j
    ensures d <= 0 ==> d * i >= d * j
  {
  }

  lemma ScaledDiv(d: int, i: int, j: int, n: int)
    requires i <= j && n > 0
    ensures d >= 0 ==> d * i / n <= d * j / n
    ensures d <= 0 ==> d * i / n >= d * j / n
  {
    ProductMonotone(d, i, j);
    if d >= 0 { DivMonotone(d * i, d * j, n); }
    if d <= 0 { DivMonotone(d * j, d * i, n); }
  }

  lemma InterpolateEnds(start: int, end: int, steps: nat)
    requires steps > 0
    ensures Interpolate(start, end, 0, steps) == start && Interpolate(start, end, steps, steps) == end
  {
    var d := end - start;
    QuotientAtLeast(d * steps, steps, d);
    QuotientAtLeast(d * steps, steps, d + 1);
  }

  /** The interpolation starts at the start, ends exactly at the end and never turns back. */
  lemma InterpolateMonotone(start: int, end: int, i: nat, j: nat, steps: nat)
    requires i <= j <= steps && steps > 0
    ensures Interpolate(start, end, 0, steps) == start && Interpolate(start, end, steps, steps) == end
    ensures start <= end ==> start <= Interpolate(start, end, i, steps) <= Interpolate(start, end, j, steps) <= end
    ensures start >= end ==> start >= Interpolate(start, end, i, steps) >= Interpolate(start, end, j, steps) >= end
  {
    InterpolateEnds(start, end, steps);
    ScaledDiv(end - start, 0, i, steps);
    ScaledDiv(end - start, i, j, steps);
    ScaledDiv(end - start, j, steps, steps);
  }

  lemma DivGap(a: int, b: int, k: nat, n: int)
    requires n > 0 && a <= b <= a + k * n
    ensures 0 <= b / n - a / n <= k
  {
    DivMonotone(a, b, n);
    DivMonotone(b, a + k * n, n);
    DivShift(a, k, n);
  }

  lemma Successor(d: int, i: int)
    ensures d * (i + 1) == d * i + d
  {
  }

  lemma InterpolateStep(start: int, end: int, i: nat, steps: nat)
    requires steps >= 10 && Abs(end - start) / 10 <= steps
    ensures Abs(Interpolate(start, end, i + 1, steps) - Interpolate(start, end, i, steps)) <= 11
  {
    var d := end - start;
    Successor(d, i);
    assert Abs(d) < 11 * steps;
    StepGap(d * i, d * (i + 1), d, steps);
  }

  lemma StepGap(a: int, b: int, d: int, steps: int)
    requires steps > 0 && b == a + d && Abs(d) < 11 * steps
    ensures Abs(b / steps - a / steps) <= 11
  {
    if d >= 0 {
      DivGap(a, b, 11, steps);
    } else {
      DivGap(b, a, 11, steps);
    }
  }

  /** For all endpoints: each axis moves one way only, inside the bounding box,
      ends exactly on target, and never jumps more than 11 pixels. */
  lemma DragPath(d: Drag, i: nat, j: nat)
    requires i <= j <= d.Steps()
    ensures d.Point(0) == (d.x, d.y) && d.Point(d.Steps()) == (d.ex, d.ey)
    ensures Min(d.x, d.ex) <= d.Point(i).0 <= Max(d.x, d.ex) && Min(d.y, d.ey) <= d.Point(i).1 <= Max(d.y, d.ey)
    ensures if d.x <= d.ex then d.Point(i).0 <= d.Point(j).0 else d.Point(i).0 >= d.Point(j).0
    ensures if d.y <= d.ey then d.Point(i).1 <= d.Point(j).1 else d.Point(i).1 >= d.Point(j).1
    ensures i < d.Steps() ==> Abs(d.Point(i + 1).0 - d.Point(i).0) <= 11 && Abs(d.Point(i + 1).1 - d.Point(i).1) <= 11
  {
    InterpolateMonotone(d.x, d.ex, i, j, d.Steps());
    InterpolateMonotone(d.y, d.ey, i, j, d.Steps());
    InterpolateStep(d.x, d.ex, i, d.Steps());
    InterpolateStep(d.y, d.ey, i, d.Steps());
  }

  /** A drag has a step for every ten pixels of either axis, at least ten, and each
      point is the point of the straight line, rounded down on each axis. */
  lemma PointsFollowLine(d: Drag, i: nat)
    ensures d.Steps() == Max(10, Abs(d.ex - d.x) / 10 + Abs(d.ey - d.y) / 10)
    ensures var n, (px, py) := d.Steps(), d.Point(i);
            && (px - d.x) * n <= (d.ex - d.x) * i < (px - d.x) * n + n
            && (py - d.y) * n <= (d.ey - d.y) * i < (py - d.y) * n + n
  {
    Division((d.ex - d.x) * i, d.Steps());
    Division((d.ey - d.y) * i, d.Steps());
  }

  // ---------------------------------------------------------------------
  // A drag as the Windows agent plays it
  // ---------------------------------------------------------------------

  datatype MouseInput = MouseInput(absX: int, absY: int, left: bool)

  /** `_on_packet` and `inject_mouse` on one datagram, without buttons two and three and the wheel. */
  function MouseIn(p: Packet): Option<MouseInput> {
    if |p| >= 7 && p[0] == MOUSE then
      Some(MouseInput(WindowsAbs(FromBytes(p[2], p[3])), WindowsAbs(FromBytes(p[4], p[5])), HasBit(p[1], 1)))
    else None
  }

  lemma {:induction false} PathPacketAt(d: Drag, width: int, height: int, n: nat, k: nat)
    requires k < n
    ensures |PathPackets(d, width, height, n)| == n
    ensures PathPackets(d, width, height, n)[k] == MousePacket(d.Point(k + 1).0, d.Point(k + 1).1, width, height, 1)
  {
    if k < n - 1 {
      PathPacketAt(d, width, height, n - 1, k);
    } else if n > 1 {
      PathPacketAt(d, width, height, n - 1, 0);
    }
  }

  /** The drag's packets: hover at the start, press there, each path point with the
      button down, release at the end. */
  function DragPoint(d: Drag, k: nat): ((int, int), bool) {
    if k == 0 then (d.Point(0), false)
    else if k <= d.Steps() + 1 then (d.Point(k - 1), true)
    else (d.Point(d.Steps()), false)
  }

  lemma DragPacketAt(d: Drag, width: int, height: int, k: nat)
    requires k < d.Steps() + 3
    ensures |DragPackets(d, width, height)| == d.Steps() + 3
    ensures var (p, down) := DragPoint(d, k);
            DragPackets(d, width, height)[k] == MousePacket(p.0, p.1, width, height, if down then 1 else 0)
  {
    DragPath(d, 0, d.Steps());
    PathPacketAt(d, width, height, d.Steps(), 0);
    if 2 <= k < d.Steps() + 2 {
      PathPacketAt(d, width, height, d.Steps(), k - 2);
    }
  }

  lemma MouseInDecodes(x: int, y: int, width: int, height: int, buttons: Byte)
    ensures MouseIn(MousePacket(x, y, width, height, buttons))
            == Some(MouseInput(OnWindows(x, width), OnWindows(y, height), HasBit(buttons, 1)))
  {
  }

  /** Which turn of the 16-bit wire a position is on; turns meet where positions
      stop being shown at 0 from the one side and from the other. */
  function Turn(v: int): int {
    (v + 32768) / 65536
  }

  lemma TurnRemainder(v: int)
    ensures var r := v - 65536 * Turn(v);
            -32768 <= r < 32768 && v % 65536 == if r >= 0 then r else r + 65536
  {
  }

  /** On its turn a position is shown from 0 on, and at 0 before. */
  lemma ShownOnTurn(v: int)
    ensures var r := v - 65536 * Turn(v);
            -32768 <= r < 32768 && WindowsAbs(Received(v)) == if r >= 0 then WindowsAbs(r) else 0
  {
    var r := v - 65536 * Turn(v);
    ReceivedIsModulo(v);
    TurnRemainder(v);
    if r < 0 { AbsIsZero(r + 65536); }
  }

  lemma SameTurnMonotone(v1: int, v2: int)
    requires v1 <= v2 && Turn(v1) == Turn(v2)
    ensures WindowsAbs(Received(v1)) <= WindowsAbs(Received(v2))
  {
    ShownOnTurn(v1);
    ShownOnTurn(v2);
    var r1, r2 := v1 - 65536 * Turn(v1), v2 - 65536 * Turn(v2);
    if 0 <= r1 < r2 { WindowsRescale(r1, r2); }
  }

  predicate OneWay(start: int, end: int, a: int, b: int) {
    if start <= end then a <= b else a >= b
  }

  lemma AxisOneWay(start: int, end: int, p: int, q: int, width: int)
    requires Min(start, end) <= p <= Max(start, end) && Min(start, end) <= q <= Max(start, end)
             && OneWay(start, end, p, q)
    requires Turn(ToAxis(start, width)) == Turn(ToAxis(end, width))
    ensures OneWay(start, end, OnWindows(p, width), OnWindows(q, width))
  {
    var low, high, a, b := Min(start, end), Max(start, end), Min(p, q), Max(p, q);
    AxisMonotone(low, a, width);
    AxisMonotone(a, b, width);
    AxisMonotone(b, high, width);
    SameTurnMonotone(ToAxis(a, width), ToAxis(b, width));
  }

  /** What Windows plays for the k-th packet of a drag. */
  lemma DragEvent(d: Drag, width: int, height: int, k: nat)
    requires k < d.Steps() + 3
    ensures |DragPackets(d, width, height)| == d.Steps() + 3
    ensures var (p, down) := DragPoint(d, k);
            MouseIn(DragPackets(d, width, height)[k])
            == Some(MouseInput(OnWindows(p.0, width), OnWindows(p.1, height), down))
  {
    DragPacketAt(d, width, height, k);
    PressedDecodes(DragPoint(d, k).0, DragPoint(d, k).1, width, height);
  }

  lemma PressedDecodes(p: (int, int), down: bool, width: int, height: int)
    ensures MouseIn(MousePacket(p.0, p.1, width, height, if down then 1 else 0))
            == Some(MouseInput(OnWindows(p.0, width), OnWindows(p.1, height), down))
  {
    MouseInDecodes(p.0, p.1, width, height, if down then 1 else 0);
  }

  lemma DragPointsOrdered(d: Drag, k: nat, l: nat)
    requires k <= l < d.Steps() + 3
    ensures var (p, _) := DragPoint(d, k); var (q, _) := DragPoint(d, l);
            && Min(d.x, d.ex) <= p.0 <= Max(d.x, d.ex) && Min(d.x, d.ex) <= q.0 <= Max(d.x, d.ex)
            && Min(d.y, d.ey) <= p.1 <= Max(d.y, d.ey) && Min(d.y, d.ey) <= q.1 <= Max(d.y, d.ey)
            && (if d.x <= d.ex then p.0 <= q.0 else p.0 >= q.0)
            && (if d.y <= d.ey then p.1 <= q.1 else p.1 >= q.1)
  {
    var i := if k == 0 then 0 else if k <= d.Steps() + 1 then k - 1 else d.Steps();
    var j := if l == 0 then 0 else if l <= d.Steps() + 1 then l - 1 else d.Steps();
    DragPath(d, i, j);
    DragPath(d, j, j);
  }

  /** Any drag as Windows plays it: the button is down on all but the first and the
      last event, and an axis moves one way only if its two ends are on one turn
      of the wire, as they are for ends on the screen. */
  lemma DragOnWindows(d: Drag, width: int, height: int, k: nat, l: nat)
    requires k <= l < d.Steps() + 3
    ensures |DragPackets(d, width, height)| == d.Steps() + 3
    ensures var a, b := MouseIn(DragPackets(d, width, height)[k]), MouseIn(DragPackets(d, width, height)[l]);
            && a.Some? && b.Some? && (a.value.left <==> 0 < k < d.Steps() + 2)
            && (Turn(ToAxis(d.x, width)) == Turn(ToAxis(d.ex, width)) ==> OneWay(d.x, d.ex, a.value.absX, b.value.absX))
            && (Turn(ToAxis(d.y, height)) == Turn(ToAxis(d.ey, height))
               ==> OneWay(d.y, d.ey, a.value.absY, b.value.absY))
  {
    DragPointsOrdered(d, k, l);
    DragEvent(d, width, height, k);
    DragEvent(d, width, height, l);
    var (p, q) := (DragPoint(d, k).0, DragPoint(d, l).0);
    if Turn(ToAxis(d.x, width)) == Turn(ToAxis(d.ex, width)) { AxisOneWay(d.x, d.ex, p.0, q.0, width); }
    if Turn(ToAxis(d.y, height)) == Turn(ToAxis(d.ey, height)) { AxisOneWay(d.y, d.ey, p.1, q.1, height); }
  }

  lemma OnScreenIsOneTurn(x: int, width: int)
    requires 0 <= x < width
    ensures Turn(ToAxis(x, width)) == 0
  {
    AxisBounds(x, width);
  }

  // ---------------------------------------------------------------------
  // When a drag is seen to turn back
  // ---------------------------------------------------------------------

  const AXIS_STEP := 30037

  lemma QuotientSum(a: int, b: int, n: int)
    requires n > 0 && a >= 0 && b >= 0
    ensures a / n + b / n <= (a + b) / n
  {
    assert a >= (a / n) * n && b >= (b / n) * n;
    assert a + b >= (a / n + b / n) * n;
    QuotientAtLeast(a + b, n, a / n + b / n);
  }

  /** Eleven pixels are less than half a turn on a screen of twelve or more. */
  lemma AxisStep(p: int, q: int, width: int)
    requires width >= 12 && p <= q <= p + 11
    ensures 0 <= ToAxis(q, width) - ToAxis(p, width) <= AXIS_STEP
  {
    AxisMonotone(p, q, width);
    var a, b := p * 32767, q * 32767;
    assert b - a <= 11 * 32767 <= AXIS_STEP * width;
    if p >= 0 {
      DivGap(a, b, AXIS_STEP, width);
    } else if q < 0 {
      DivGap(-b, -a, AXIS_STEP, width);
    } else {
      QuotientSum(-a, b, width);
      DivMonotone(b - a, AXIS_STEP * width, width);
      DivShift(0, AXIS_STEP, width);
    }
  }

  /** The position of the i-th point of one axis of a drag. */
  function PathAxis(start: int, end: int, steps: nat, width: int, i: nat): int
    requires steps > 0
  {
    ToAxis(Interpolate(start, end, i, steps), width)
  }

  /** A path that passes a position does so between two successive points. */
  lemma {:induction false} Crossing(start: int, end: int, steps: nat, width: int, at: int, n: nat) returns (j: nat)
    requires 0 < steps && n <= steps
    requires (PathAxis(start, end, steps, width, 0) < at) != (PathAxis(start, end, steps, width, n) < at)
    ensures 0 < j <= n
    ensures (PathAxis(start, end, steps, width, j - 1) < at) == (PathAxis(start, end, steps, width, 0) < at)
    ensures (PathAxis(start, end, steps, width, j) < at) == (PathAxis(start, end, steps, width, n) < at)
  {
    if (PathAxis(start, end, steps, width, n - 1) < at) == (PathAxis(start, end, steps, width, 0) < at) {
      j := n;
    } else {
      j := Crossing(start, end, steps, width, at, n - 1);
    }
  }

  lemma PathStep(start: int, end: int, steps: nat, width: int, i: nat)
    requires width >= 12 && steps >= 10 && Abs(end - start) / 10 <= steps && i < steps
    ensures var a, b := PathAxis(start, end, steps, width, i), PathAxis(start, end, steps, width, i + 1);
            OneWay(start, end, a, b) && Abs(b - a) <= AXIS_STEP
  {
    var p, q := Interpolate(start, end, i, steps), Interpolate(start, end, i + 1, steps);
    InterpolateMonotone(start, end, i, i + 1, steps);
    InterpolateStep(start, end, i, steps);
    AxisStep(Min(p, q), Max(p, q), width);
  }

  /** Just below the start of a turn Windows shows a positive position, just above it 0. */
  lemma TurnJumps(low: int, high: int, turn: int)
    requires turn * 65536 + 32768 - AXIS_STEP <= low < turn * 65536 + 32768 <= high < turn * 65536 + 32768 + AXIS_STEP
    ensures WindowsAbs(Received(low)) > 0 && WindowsAbs(Received(high)) == 0
  {
    ShownOnTurn(low);
    ShownOnTurn(high);
    assert Turn(low) == turn && Turn(high) == turn + 1;
    AbsIsZero(low - 65536 * turn);
  }

  /** If the ends are on different turns, two successive points are shown in the wrong order. */
  lemma TurnsBack(start: int, end: int, steps: nat, width: int) returns (j: nat)
    requires width >= 12 && steps >= 10 && Abs(end - start) / 10 <= steps
    requires Turn(ToAxis(start, width)) != Turn(ToAxis(end, width))
    ensures 0 < j <= steps
    ensures !OneWay(start, end, OnWindows(Interpolate(start, end, j - 1, steps), width),
                    OnWindows(Interpolate(start, end, j, steps), width))
  {
    InterpolateEnds(start, end, steps);
    AxisMonotone(Min(start, end), Max(start, end), width);
    var turn := Turn(ToAxis(Min(start, end), width));
    j := Crossing(start, end, steps, width, turn * 65536 + 32768, steps);
    PathStep(start, end, steps, width, j - 1);
    var a, b := PathAxis(start, end, steps, width, j - 1), PathAxis(start, end, steps, width, j);
    TurnJumps(Min(a, b), Max(a, b), turn);
  }

  /** Both axes of a drag are shown moving one way. */
  ghost predicate SeenOneWay(d: Drag, width: int, height: int) {
    forall i, j | 0 <= i <= j <= d.Steps() ::
      && OneWay(d.x, d.ex, OnWindows(d.Point(i).0, width), OnWindows(d.Point(j).0, width))
      && OneWay(d.y, d.ey, OnWindows(d.Point(i).1, height), OnWindows(d.Point(j).1, height))
  }

  /** For every screen, ends on one turn on both axes are enough. */
  lemma SameTurnsSeenOneWay(d: Drag, width: int, height: int)
    requires Turn(ToAxis(d.x, width)) == Turn(ToAxis(d.ex, width))
    requires Turn(ToAxis(d.y, height)) == Turn(ToAxis(d.ey, height))
    ensures SeenOneWay(d, width, height)
  {
    forall i, j | 0 <= i <= j <= d.Steps()
      ensures OneWay(d.x, d.ex, OnWindows(d.Point(i).0, width), OnWindows(d.Point(j).0, width))
      ensures OneWay(d.y, d.ey, OnWindows(d.Point(i).1, height), OnWindows(d.Point(j).1, height))
    {
      DragPath(d, i, j);
      DragPath(d, j, j);
      AxisOneWay(d.x, d.ex, d.Point(i).0, d.Point(j).0, width);
      AxisOneWay(d.y, d.ey, d.Point(i).1, d.Point(j).1, height);
    }
  }

  /** A drag between two points on the screen is shown moving one way on both axes. */
  lemma OnScreenDragSeenOneWay(d: Drag, width: int, height: int)
    requires 0 <= d.x < width && 0 <= d.ex < width && 0 <= d.y < height && 0 <= d.ey < height
    ensures SeenOneWay(d, width, height)
  {
    OnScreenIsOneTurn(d.x, width);
    OnScreenIsOneTurn(d.ex, width);
    OnScreenIsOneTurn(d.y, height);
    OnScreenIsOneTurn(d.ey, height);
    SameTurnsSeenOneWay(d, width, height);
  }

  /** On a screen of at least twelve pixels either way Windows shows a drag moving
      one way on both axes exactly when the ends of each axis are on one turn. */
  lemma DragSeenOneWay(d: Drag, width: int, height: int)
    requires width >= 12 && height >= 12
    ensures SeenOneWay(d, width, height) <==>
            && Turn(ToAxis(d.x, width)) == Turn(ToAxis(d.ex, width))
            && Turn(ToAxis(d.y, height)) == Turn(ToAxis(d.ey, height))
  {
    if Turn(ToAxis(d.x, width)) != Turn(ToAxis(d.ex, width)) {
      var j := TurnsBack(d.x, d.ex, d.Steps(), width);
      assert !OneWay(d.x, d.ex, OnWindows(d.Point(j - 1).0, width), OnWindows(d.Point(j).0, width));
    } else if Turn(ToAxis(d.y, height)) != Turn(ToAxis(d.ey, height)) {
      var j := TurnsBack(d.y, d.ey, d.Steps(), height);
      assert !OneWay(d.y, d.ey, OnWindows(d.Point(j - 1).1, height), OnWindows(d.Point(j).1, height));
    } else {
      SameTurnsSeenOneWay(d, width, height);
    }
  }

  // ---------------------------------------------------------------------
  // Clicks
  // ---------------------------------------------------------------------

  lemma {:induction false} ClicksAt(x: int, y: int, width: int, height: int, button: Byte, count: nat, k: nat)
    requires k < 3 * count
    ensures |Clicks(x, y, width, height, button, count)| == 3 * count
    ensures Clicks(x, y, width, height, button, count)[k]
            == MousePacket(x, y, width, height, if k % 3 == 1 then button else 0)
  {
    if k < 3 * (count - 1) {
      ClicksAt(x, y, width, height, button, count - 1, k);
    } else if count > 1 {
      ClicksAt(x, y, width, height, button, count - 1, 0);
    }
  }

  /** How often a button goes down. */
  function Presses(packets: seq<Packet>): nat {
    if packets == [] then 0
    else
      var init, last := packets[..|packets| - 1], packets[|packets| - 1];
      Presses(init) + if Down(last) && (init == [] || !Down(init[|init| - 1])) then 1 else 0
  }

  predicate Down(p: Packet) {
    |p| == 7 && p[1] != 0
  }

  lemma PressesSnoc(packets: seq<Packet>, p: Packet)
    ensures Presses(packets + [p])
            == Presses(packets) + if Down(p) && (packets == [] || !Down(packets[|packets| - 1])) then 1 else 0
  {
    assert (packets + [p])[..|packets|] == packets;
  }

  lemma ThreeMorePress(before: seq<Packet>, up: Packet, down: Packet)
    requires !Down(up) && Down(down)
    ensures Presses(before + [up, down, up]) == Presses(before) + 1
  {
    PressesSnoc(before, up);
    PressesSnoc(before + [up], down);
    PressesSnoc(before + [up] + [down], up);
    assert before + [up, down, up] == before + [up] + [down] + [up];
  }

  lemma {:induction false} ClicksPress(x: int, y: int, width: int, height: int, button: Byte, count: nat)
    requires button != 0
    ensures var clicks := Clicks(x, y, width, height, button, count);
            Presses(clicks) == count && (clicks != [] ==> !Down(clicks[|clicks| - 1]))
  {
    if count > 0 {
      ClicksPress(x, y, width, height, button, count - 1);
      ThreeMorePress(Clicks(x, y, width, height, button, count - 1), MousePacket(x, y, width, height, 0),
                     MousePacket(x, y, width, height, button));
    }
  }

  /** The mouse packets among those sent, in order. */
  function MousePart(packets: seq<Packet>): seq<Packet> {
    if packets == [] then []
    else MousePart(packets[..|packets| - 1]) + if IsMouse(packets[|packets| - 1]) then [packets[|packets| - 1]] else []
  }

  lemma {:induction false} MousePartConcat(a: seq<Packet>, b: seq<Packet>)
    ensures MousePart(a + b) == MousePart(a) + MousePart(b)
  {
    if b == [] {
      assert a + b == a;
    } else {
      assert (a + b)[..|a + b| - 1] == a + b[..|b| - 1];
      MousePartConcat(a, b[..|b| - 1]);
    }
  }

  lemma {:induction false} AllMouse(packets: seq<Packet>)
    requires forall p | p in packets :: IsMouse(p)
    ensures MousePart(packets) == packets
  {
    if packets != [] {
      var init, last := packets[..|packets| - 1], packets[|packets| - 1];
      forall p | p in init ensures p in packets {}
      AllMouse(init);
      assert last in packets;
    }
  }

  lemma {:induction false} NoMouse(packets: seq<Packet>)
    requires forall p | p in packets :: !IsMouse(p)
    ensures MousePart(packets) == []
  {
    if packets != [] {
      forall p | p in packets[..|packets| - 1] ensures p in packets {}
      NoMouse(packets[..|packets| - 1]);
      assert packets[|packets| - 1] in packets;
    }
  }

  lemma MiddleIsMouse(a: seq<Packet>, b: seq<Packet>, c: seq<Packet>)
    requires (forall p | p in a :: !IsMouse(p)) && (forall p | p in c :: !IsMouse(p))
    requires forall p | p in b :: IsMouse(p)
    ensures MousePart(a + b + c) == b
  {
    MousePartConcat(a + b, c);
    MousePartConcat(a, b);
    NoMouse(a);
    AllMouse(b);
    NoMouse(c);
  }

  lemma ClickMousePart(x: int, y: int, width: int, height: int, button: Byte, count: nat, modifier: Byte)
    ensures MousePart(ClickPackets(x, y, width, height, button, count, modifier))
            == Clicks(x, y, width, height, button, count)
  {
    StrokesAreNotMouse(modifier != 0, modifier);
    StrokesAreNotMouse(modifier != 0, 0);
    ClicksAreMouse(x, y, width, height, button, count);
    MiddleIsMouse(StrokeIf(modifier != 0, modifier), Clicks(x, y, width, height, button, count),
                  StrokeIf(modifier != 0, 0));
  }

  /** A click sends three mouse packets each time, all at the target: the button is
      down at the second of each three only, so that it goes down as often as asked
      for and is up in the end. Windows plays them at one place, and a left click as
      one. */
  lemma ClickPlayed(x: int, y: int, width: int, height: int, button: Byte, count: nat, modifier: Byte, k: nat)
    requires k < 3 * count
    ensures var mouse := MousePart(ClickPackets(x, y, width, height, button, count, modifier));
            && |mouse| == 3 * count
            && Carries(mouse[k], if k % 3 == 1 then button else 0, ToAxis(x, width), ToAxis(y, height))
            && MouseIn(mouse[k])
               == Some(MouseInput(OnWindows(x, width), OnWindows(y, height), k % 3 == 1 && button % 2 == 1))
  {
    ClickMousePart(x, y, width, height, button, count, modifier);
    ClicksAt(x, y, width, height, button, count, k);
    PacketCarries(x, y, width, height, if k % 3 == 1 then button else 0);
    MouseInDecodes(x, y, width, height, if k % 3 == 1 then button else 0);
  }

  lemma ClickPresses(x: int, y: int, width: int, height: int, button: Byte, count: nat, modifier: Byte)
    requires button != 0
    ensures var mouse := MousePart(ClickPackets(x, y, width, height, button, count, modifier));
            Presses(mouse) == count && (mouse != [] ==> !Down(mouse[|mouse| - 1]))
  {
    ClickMousePart(x, y, width, height, button, count, modifier);
    ClicksPress(x, y, width, height, button, count);
  }

  lemma ReportsAround(a: seq<Packet>, b: seq<Packet>, c: seq<Packet>)
    requires forall p | p in b :: |p| == 7
    ensures ReportsIn(a + b + c) == ReportsIn(a) + ReportsIn(c)
  {
    Typing.ReportsConcat(a + b, c);
    Typing.ReportsConcat(a, b);
    MouseHasNoReports(b);
    assert ReportsIn(a) + [] == ReportsIn(a);
  }

  lemma StrokeIfReports(any: bool, modifier: Byte)
    ensures any ==> ReportsIn(StrokeIf(any, modifier)) == [KeyReport(modifier, 0), KeyReport(0, 0)]
    ensures !any ==> ReportsIn(StrokeIf(any, modifier)) == []
  {
    Typing.StrokeReports(modifier, 0);
  }

  /** A click with modifiers sends four keyboard reports, the modifiers alone and
      three of nothing; one without sends none. */
  lemma ClickReports(x: int, y: int, width: int, height: int, button: Byte, count: nat, modifier: Byte)
    ensures ReportsIn(ClickPackets(x, y, width, height, button, count, modifier))
            == if modifier == 0 then []
               else [KeyReport(modifier, 0), KeyReport(0, 0), KeyReport(0, 0), KeyReport(0, 0)]
  {
    ClicksAreMouse(x, y, width, height, button, count);
    ReportsAround(StrokeIf(modifier != 0, modifier), Clicks(x, y, width, height, button, count),
                  StrokeIf(modifier != 0, 0));
    StrokeIfReports(modifier != 0, modifier);
    StrokeIfReports(modifier != 0, 0);
    FourReports(KeyReport(modifier, 0), KeyReport(0, 0));
  }

  lemma FourReports(r: Report, none: Report)
    ensures [r, none] + [none, none] == [r, none, none, none]
  {
  }

  // ---------------------------------------------------------------------
  // Modified clicks
  // ---------------------------------------------------------------------

  lemma {:induction false} ClicksAreMouse(x: int, y: int, width: int, height: int, button: Byte, count: nat)
    ensures forall p | p in Clicks(x, y, width, height, button, count) :: |p| == 7 && p[0] == MOUSE
  {
    if count > 0 { ClicksAreMouse(x, y, width, height, button, count - 1); }
  }

  lemma {:induction false} MouseHasNoReports(packets: seq<Packet>)
    requires forall p | p in packets :: |p| == 7
    ensures ReportsIn(packets) == []
  {
    if packets == [] {
    } else {
      forall p | p in packets[..|packets| - 1] ensures p in packets {}
      MouseHasNoReports(packets[..|packets| - 1]);
    }
  }

  predicate IsMouse(p: Packet) {
    |p| > 0 && p[0] == MOUSE
  }

  /** What the node has of a click's keyboard when one of its mouse packets arrives. */
  lemma ReportsBeforeMouse(lead: seq<Packet>, clicks: seq<Packet>, tail: seq<Packet>, n: nat)
    requires n < |lead + clicks + tail| && IsMouse((lead + clicks + tail)[n])
    requires forall p | p in lead :: !IsMouse(p)
    requires forall p | p in tail :: !IsMouse(p)
    requires forall p | p in clicks :: |p| == 7
    ensures ReportsIn((lead + clicks + tail)[..n]) == ReportsIn(lead)
  {
    var all := lead + clicks + tail;
    assert forall k | 0 <= k < |lead| :: lead[k] in lead && !IsMouse(all[k]);
    assert forall k | 0 <= k < |tail| :: tail[k] in tail && !IsMouse(all[|lead| + |clicks| + k]);
    assert |lead| <= n <= |lead| + |clicks|;
    var before := clicks[..n - |lead|];
    assert all[..n] == lead + before;
    forall p | p in before ensures p in clicks {}
    MouseHasNoReports(before);
    Typing.ReportsConcat(lead, before);
  }

  /** However a modified click is played, no modifier (and no key) is down at any
      of its mouse events: the modifier stroke is released by its own second
      packet before the first mouse packet goes out. */
  lemma ClickModifierNeverHeld(x: int, y: int, width: int, height: int, button: Byte, count: nat, modifier: Byte,
                               n: nat, events: seq<KeyEvent>)
    ensures var packets := ClickPackets(x, y, width, height, button, count, modifier);
            n < |packets| && IsMouse(packets[n]) && WindowsSession(ReportsIn(packets[..n]), events)
            ==> Replay({}, events) == {}
  {
    var packets := ClickPackets(x, y, width, height, button, count, modifier);
    if n < |packets| && IsMouse(packets[n]) && WindowsSession(ReportsIn(packets[..n]), events) {
      var lead, tail := StrokeIf(modifier != 0, modifier), StrokeIf(modifier != 0, 0);
      ClicksAreMouse(x, y, width, height, button, count);
      StrokesAreNotMouse(modifier != 0, modifier);
      StrokesAreNotMouse(modifier != 0, 0);
      ReportsBeforeMouse(lead, Clicks(x, y, width, height, button, count), tail, n);
      ReleasedStroke(modifier, lead, events);
    }
  }

  lemma SomeBit(modifier: Byte)
    requires modifier != 0
    ensures exists i :: 0 <= i < 8 && HasBit(modifier, MOD_VK[i].0)
  {
    assert HasBit(modifier, MOD_VK[0].0) || HasBit(modifier, MOD_VK[1].0) || HasBit(modifier, MOD_VK[2].0)
        || HasBit(modifier, MOD_VK[3].0) || HasBit(modifier, MOD_VK[4].0) || HasBit(modifier, MOD_VK[5].0)
        || HasBit(modifier, MOD_VK[6].0) || HasBit(modifier, MOD_VK[7].0);
  }

  /** So a click's modifiers are the ones held at its mouse events exactly when
      none were asked for. */
  lemma ClickHoldsModifiersExactly(x: int, y: int, width: int, height: int, button: Byte, count: nat, modifier: Byte,
                                   n: nat, events: seq<KeyEvent>)
    ensures var packets := ClickPackets(x, y, width, height, button, count, modifier);
            n < |packets| && IsMouse(packets[n]) && WindowsSession(ReportsIn(packets[..n]), events)
            ==> (Replay({}, events) == HeldModifiers(modifier) <==> modifier == 0)
  {
    ClickModifierNeverHeld(x, y, width, height, button, count, modifier, n, events);
    if modifier == 0 {
      Typing.ShiftHeld(0);
    } else {
      SomeBit(modifier);
      var i :| 0 <= i < 8 && HasBit(modifier, MOD_VK[i].0);
      assert MOD_VK[i].1 in HeldModifiers(modifier);
    }
  }

  lemma StrokesAreNotMouse(any: bool, modifier: Byte)
    ensures forall p | p in StrokeIf(any, modifier) :: !IsMouse(p)
  {
  }

  lemma ReleasedStroke(modifier: Byte, lead: seq<Packet>, events: seq<KeyEvent>)
    requires lead == StrokeIf(modifier != 0, modifier) && WindowsSession(ReportsIn(lead), events)
    ensures Replay({}, events) == {}
  {
    Typing.StrokeReports(modifier, 0);
    WindowsRefinesFullState(ReportsIn(lead), events);
    Typing.KeyReportKeys(0, 0);
    Typing.ShiftHeld(0);
  }
}
