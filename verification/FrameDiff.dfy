/**
 Before/after screen comparison (controller/agent_engine.py, _diff_frames).

 The frame is tiled with 64-pixel cells; a cell is reported when more than a
 tenth of it changed. Percentages are compared as exact ratios of counts.
 */
module FrameDiff {
  import opened Integers

  datatype Rgb = Rgb(r: int, g: int, b: int)

  datatype RawFrame = RawFrame(height: nat, width: nat, pixels: seq<seq<Rgb>>) {
    ghost predicate Valid() {
      |pixels| == height && forall y | 0 <= y < height :: |pixels[y]| == width
    }
  }

  type Frame = f: RawFrame | f.Valid() witness RawFrame(0, 0, [])

  /** One entry per pixel: did it change? */
  type Mask = seq<seq<bool>>

  ghost predicate Sized(m: Mask, h: nat, w: nat) {
    |m| == h && forall y | 0 <= y < h :: |m[y]| == w
  }

  /** The mean absolute channel difference exceeds 15. */
  predicate PixelChanged(a: Rgb, b: Rgb) {
    Abs(a.r - b.r) + Abs(a.g - b.g) + Abs(a.b - b.b) > 45
  }

  function ChangedMask(a: Frame, b: Frame): (m: Mask)
    requires a.height == b.height && a.width == b.width
    ensures Sized(m, a.height, a.width)
  {
    seq(a.height, y requires 0 <= y < a.height =>
      seq(a.width, x requires 0 <= x < a.width => PixelChanged(a.pixels[y][x], b.pixels[y][x])))
  }

  // ---------------------------------------------------------------------
  // Counting
  // ---------------------------------------------------------------------

  /** Number of true entries in row[x0..x1]. */
  function RowCount(row: seq<bool>, x0: nat, x1: nat): nat
    requires x0 <= x1 <= |row|
  {
    if x0 == x1 then 0 else RowCount(row, x0, x1 - 1) + if row[x1 - 1] then 1 else 0
  }

  /** Number of true entries in the rectangle of rows y0..y1 and columns x0..x1. */
  function Count(m: Mask, y0: nat, y1: nat, x0: nat, x1: nat): nat
    requires y0 <= y1 <= |m| && x0 <= x1
    requires forall y | y0 <= y < y1 :: x1 <= |m[y]|
  {
    if y0 == y1 then 0 else Count(m, y0, y1 - 1, x0, x1) + RowCount(m[y1 - 1], x0, x1)
  }

  lemma {:induction false} RowSplit(row: seq<bool>, x0: nat, x1: nat, x2: nat)
    requires x0 <= x1 <= x2 <= |row|
    ensures RowCount(row, x0, x2) == RowCount(row, x0, x1) + RowCount(row, x1, x2)
  {
    if x1 < x2 { RowSplit(row, x0, x1, x2 - 1); }
  }

  lemma {:induction false} SplitColumns(m: Mask, y0: nat, y1: nat, x0: nat, x1: nat, x2: nat)
    requires y0 <= y1 <= |m| && x0 <= x1 <= x2 && forall y | y0 <= y < y1 :: x2 <= |m[y]|
    ensures Count(m, y0, y1, x0, x2) == Count(m, y0, y1, x0, x1) + Count(m, y0, y1, x1, x2)
  {
    if y0 < y1 {
      SplitColumns(m, y0, y1 - 1, x0, x1, x2);
      RowSplit(m[y1 - 1], x0, x1, x2);
    }
  }

  lemma {:induction false} SplitRows(m: Mask, y0: nat, y1: nat, y2: nat, x0: nat, x1: nat)
    requires y0 <= y1 <= y2 <= |m| && x0 <= x1 && forall y | y0 <= y < y2 :: x1 <= |m[y]|
    ensures Count(m, y0, y2, x0, x1) == Count(m, y0, y1, x0, x1) + Count(m, y1, y2, x0, x1)
  {
    if y1 < y2 { SplitRows(m, y0, y1, y2 - 1, x0, x1); }
  }

  // ---------------------------------------------------------------------
  // The grid
  // ---------------------------------------------------------------------

  const GRID := 64

  datatype Region = Region(x: nat, y: nat, w: nat, h: nat, changed: nat) {
    predicate Contains(py: int, px: int) {
      y <= py < y + h && x <= px < x + w
    }
  }

  /** The cell at grid origin (gy, gx), cut off at the frame's edges. */
  function Cell(m: Mask, h: nat, w: nat, gy: nat, gx: nat): (c: Region)
    requires Sized(m, h, w) && gy < h && gx < w
    ensures c.y == gy && c.x == gx && 0 < c.h <= GRID && 0 < c.w <= GRID && gy + c.h <= h && gx + c.w <= w
  {
    var ch, cw := Min(GRID, h - gy), Min(GRID, w - gx);
    Region(gx, gy, cw, ch, Count(m, gy, gy + ch, gx, gx + cw))
  }

  /** More than 10% of the cell changed. */
  predicate Hot(c: Region) {
    10 * c.changed > c.h * c.w
  }

  function IfHot(c: Region): seq<Region> {
    if Hot(c) then [c] else []
  }

  /** The reported cells of one band of the grid, from column gx on. */
  function Band(m: Mask, h: nat, w: nat, gy: nat, gx: nat): seq<Region>
    requires Sized(m, h, w) && gy < h
    decreases w - gx
  {
    if gx >= w then [] else IfHot(Cell(m, h, w, gy, gx)) + Band(m, h, w, gy, gx + GRID)
  }

  /** The reported cells from row gy on, band by band. */
  function Bands(m: Mask, h: nat, w: nat, gy: nat): seq<Region>
    requires Sized(m, h, w)
    decreases h - gy
  {
    if gy >= h then [] else Band(m, h, w, gy, 0) + Bands(m, h, w, gy + GRID)
  }

  function Reported(m: Mask, h: nat, w: nat): seq<Region>
    requires Sized(m, h, w)
  {
    Bands(m, h, w, 0)
  }

  datatype Diff = Diff(changed: bool, regions: seq<Region>)

  /** What the comparison answers. */
  ghost function DiffOf(before: Frame, after: Frame): Diff {
    if before.height != after.height || before.width != after.width then Diff(true, [])
    else
      var h, w := before.height, before.width;
      var m := ChangedMask(before, after);
      if h * w > 0 && 200 * Count(m, 0, h, 0, w) < h * w then Diff(false, [])
      else Diff(true, Reported(m, h, w))
  }

  method DiffFrames(before: Frame, after: Frame) returns (changed: bool, regions: seq<Region>)
    ensures Diff(changed, regions) == DiffOf(before, after)
  {
    if before.height != after.height || before.width != after.width {
      return true, [];
    }
    var h, w := before.height, before.width;
    var mask := ChangedMask(before, after);
    // An empty frame has no mean; the comparison with NaN is false.
    if h * w > 0 && 200 * Count(mask, 0, h, 0, w) < h * w {
      return false, [];
    }
    regions := ScanGrid(mask, h, w);
    changed := true;
  }

  method ScanGrid(mask: Mask, h: nat, w: nat) returns (regions: seq<Region>)
    requires Sized(mask, h, w)
    ensures regions == Reported(mask, h, w)
  {
    regions := [];
    var gy := 0;
    while gy < h
      invariant gy >= 0
      invariant regions + Bands(mask, h, w, gy) == Reported(mask, h, w)
      decreases h - gy
    {
      ghost var above := regions;
      regions := ScanBand(mask, h, w, gy, regions);
      Reassociate(above, Band(mask, h, w, gy, 0), Bands(mask, h, w, gy + GRID));
      gy := gy + GRID;
    }
    Reassociate(regions, [], []);
  }

  /** The inner loop: one band's cells, appended to the regions found so far. */
  method ScanBand(mask: Mask, h: nat, w: nat, gy: nat, above: seq<Region>) returns (regions: seq<Region>)
    requires Sized(mask, h, w) && gy < h
    ensures regions == above + Band(mask, h, w, gy, 0)
  {
    regions := above;
    var gx := 0;
    while gx < w
      invariant gx >= 0
      invariant regions + Band(mask, h, w, gy, gx) == above + Band(mask, h, w, gy, 0)
      decreases w - gx
    {
      var cell := Cell(mask, h, w, gy, gx);
      Reassociate(regions, IfHot(cell), Band(mask, h, w, gy, gx + GRID));
      if Hot(cell) {
        regions := regions + [cell];
      } else {
        Reassociate(regions, [], []);
      }
      gx := gx + GRID;
    }
    Reassociate(regions, [], []);
  }

  lemma Reassociate(a: seq<Region>, b: seq<Region>, c: seq<Region>)
    ensures a + (b + c) == a + b + c
    ensures a + [] == a
  {
  }

  // ---------------------------------------------------------------------
  // The cells partition the frame
  // ---------------------------------------------------------------------

  ghost predicate GridOrigin(gy: int, gx: int, h: nat, w: nat) {
    0 <= gy < h && 0 <= gx < w && gy % GRID == 0 && gx % GRID == 0
  }

  function Origin(p: int): int { p / GRID * GRID }

  /** Every pixel lies in exactly one cell, the one at its rounded-down origin. */
  lemma CellsPartition(m: Mask, h: nat, w: nat, gy: nat, gx: nat, py: nat, px: nat)
    requires Sized(m, h, w) && py < h && px < w && GridOrigin(gy, gx, h, w)
    ensures GridOrigin(Origin(py), Origin(px), h, w)
    ensures Cell(m, h, w, gy, gx).Contains(py, px) <==> gy == Origin(py) && gx == Origin(px)
  {
  }

  /** Sum of the changed counts of a band's cells, from column gx on. */
  function BandTotal(m: Mask, h: nat, w: nat, gy: nat, gx: nat): nat
    requires Sized(m, h, w) && gy < h
    decreases w - gx
  {
    if gx >= w then 0 else Cell(m, h, w, gy, gx).changed + BandTotal(m, h, w, gy, gx + GRID)
  }

  function CellTotal(m: Mask, h: nat, w: nat, gy: nat): nat
    requires Sized(m, h, w)
    decreases h - gy
  {
    if gy >= h then 0 else BandTotal(m, h, w, gy, 0) + CellTotal(m, h, w, gy + GRID)
  }

  lemma {:induction false} BandTotalIsCount(m: Mask, h: nat, w: nat, gy: nat, gx: nat)
    requires Sized(m, h, w) && gy < h && gx <= w + GRID
    ensures BandTotal(m, h, w, gy, gx) == Count(m, gy, Min(gy + GRID, h), Min(gx, w), w)
    decreases w - gx
  {
    if gx >= w {
      EmptyBand(m, gy, Min(gy + GRID, h), w);
    } else {
      BandTotalIsCount(m, h, w, gy, gx + GRID);
      SplitColumns(m, gy, Min(gy + GRID, h), gx, Min(gx + GRID, w), w);
    }
  }

  lemma {:induction false} TotalIsRest(m: Mask, h: nat, w: nat, gy: nat)
    requires Sized(m, h, w)
    ensures CellTotal(m, h, w, gy) == Count(m, Min(gy, h), h, 0, w)
    decreases h - gy
  {
    if gy < h {
      TotalIsRest(m, h, w, gy + GRID);
      BandTotalIsCount(m, h, w, gy, 0);
      SplitRows(m, gy, Min(gy + GRID, h), h, 0, w);
    }
  }

  lemma {:induction false} EmptyBand(m: Mask, y0: nat, y1: nat, x: nat)
    requires y0 <= y1 <= |m| && forall y | y0 <= y < y1 :: x <= |m[y]|
    ensures Count(m, y0, y1, x, x) == 0
  {
    if y0 < y1 { EmptyBand(m, y0, y1 - 1, x); }
  }

  /** Conservation: the cells' changed counts add up to the whole mask's. */
  lemma CountConserved(m: Mask, h: nat, w: nat)
    requires Sized(m, h, w)
    ensures CellTotal(m, h, w, 0) == Count(m, 0, h, 0, w)
  {
    TotalIsRest(m, h, w, 0);
  }

  // ---------------------------------------------------------------------
  // What is reported
  // ---------------------------------------------------------------------

  ghost predicate HotCell(m: Mask, h: nat, w: nat, r: Region)
    requires Sized(m, h, w)
  {
    GridOrigin(r.y, r.x, h, w) && r == Cell(m, h, w, r.y, r.x) && Hot(r)
  }

  lemma NextGridLine(a: int, b: int)
    requires a % GRID == 0 && b % GRID == 0
    ensures (a + GRID) % GRID == 0
    ensures a < b ==> a + GRID <= b
  {
  }

  lemma {:induction false} BandExactly(m: Mask, h: nat, w: nat, gy: nat, gx: nat, r: Region)
    requires Sized(m, h, w) && gy < h && gy % GRID == 0 && gx % GRID == 0
    ensures r in Band(m, h, w, gy, gx) <==> HotCell(m, h, w, r) && r.y == gy && r.x >= gx
    decreases w - gx
  {
    if gx < w {
      if HotCell(m, h, w, r) { NextGridLine(gx, r.x); }
      NextGridLine(gx, gx);
      BandExactly(m, h, w, gy, gx + GRID, r);
      assert r in Band(m, h, w, gy, gx) <==> r in IfHot(Cell(m, h, w, gy, gx)) || r in Band(m, h, w, gy, gx + GRID);
    }
  }

  lemma {:induction false} BandsExactly(m: Mask, h: nat, w: nat, gy: nat, r: Region)
    requires Sized(m, h, w) && gy % GRID == 0
    ensures r in Bands(m, h, w, gy) <==> HotCell(m, h, w, r) && r.y >= gy
    decreases h - gy
  {
    if gy < h {
      if HotCell(m, h, w, r) { NextGridLine(gy, r.y); }
      NextGridLine(gy, gy);
      BandsExactly(m, h, w, gy + GRID, r);
      BandExactly(m, h, w, gy, 0, r);
      var band, below := Band(m, h, w, gy, 0), Bands(m, h, w, gy + GRID);
      assert Bands(m, h, w, gy) == band + below;
      assert r in band + below <==> r in band || r in below;
    }
  }

  /** The regions are exactly the hot cells of the grid. */
  lemma ReportedExactly(m: Mask, h: nat, w: nat, r: Region)
    requires Sized(m, h, w)
    ensures r in Reported(m, h, w) <==> HotCell(m, h, w, r)
  {
    BandsExactly(m, h, w, 0, r);
  }

  /** A region is reported exactly when it is a hot cell of the grid; so regions
      are inside the frame and any two of them are the same or disjoint. */
  lemma RegionsInBoundsAndDisjoint(m: Mask, h: nat, w: nat, r: Region, s: Region)
    requires Sized(m, h, w) && r in Reported(m, h, w) && s in Reported(m, h, w)
    ensures r.y + r.h <= h && r.x + r.w <= w && r.h > 0 && r.w > 0
    ensures r != s ==> forall py, px :: !(r.Contains(py, px) && s.Contains(py, px))
  {
    ReportedExactly(m, h, w, r);
    ReportedExactly(m, h, w, s);
    forall py, px | r.Contains(py, px) && s.Contains(py, px) ensures r == s {
      CellsPartition(m, h, w, r.y, r.x, py, px);
      CellsPartition(m, h, w, s.y, s.x, py, px);
    }
  }

  /** Row by row, and from left to right in a row. */
  predicate Before(r: Region, s: Region) {
    r.y < s.y || (r.y == s.y && r.x < s.x)
  }

  ghost predicate InOrder(rs: seq<Region>) {
    forall i, j | 0 <= i < j < |rs| :: Before(rs[i], rs[j])
  }

  lemma OrderJoins(a: seq<Region>, b: seq<Region>)
    requires InOrder(a) && InOrder(b) && forall r, s | r in a && s in b :: Before(r, s)
    ensures InOrder(a + b)
  {
    forall i, j | 0 <= i < j < |a + b| ensures Before((a + b)[i], (a + b)[j]) {
      if i < |a| <= j {
        assert a[i] in a && b[j - |a|] in b;
      }
    }
  }

  lemma {:induction false} BandInOrder(m: Mask, h: nat, w: nat, gy: nat, gx: nat)
    requires Sized(m, h, w) && gy < h && gy % GRID == 0 && gx % GRID == 0
    ensures InOrder(Band(m, h, w, gy, gx))
    decreases w - gx
  {
    if gx < w {
      NextGridLine(gx, gx);
      BandInOrder(m, h, w, gy, gx + GRID);
      var first, rest := Cell(m, h, w, gy, gx), Band(m, h, w, gy, gx + GRID);
      forall s | s in rest ensures Before(first, s) {
        BandExactly(m, h, w, gy, gx + GRID, s);
      }
      OrderJoins(IfHot(first), rest);
    }
  }

  lemma {:induction false} BandsInOrder(m: Mask, h: nat, w: nat, gy: nat)
    requires Sized(m, h, w) && gy % GRID == 0
    ensures InOrder(Bands(m, h, w, gy))
    decreases h - gy
  {
    if gy < h {
      NextGridLine(gy, gy);
      BandsInOrder(m, h, w, gy + GRID);
      BandInOrder(m, h, w, gy, 0);
      var band, below := Band(m, h, w, gy, 0), Bands(m, h, w, gy + GRID);
      forall r, s | r in band && s in below ensures Before(r, s) {
        BandExactly(m, h, w, gy, 0, r);
        BandsExactly(m, h, w, gy + GRID, s);
      }
      OrderJoins(band, below);
    }
  }

  /** Regions are reported row by row from left to right, none of them twice. */
  lemma ReportedInOrder(m: Mask, h: nat, w: nat)
    requires Sized(m, h, w)
    ensures InOrder(Reported(m, h, w))
    ensures forall i, j | 0 <= i < j < |Reported(m, h, w)| :: Reported(m, h, w)[i] != Reported(m, h, w)[j]
  {
    BandsInOrder(m, h, w, 0);
  }

  // ---------------------------------------------------------------------
  // The answer in terms of the two frames
  // ---------------------------------------------------------------------

  function MeanDifference(p: Rgb, q: Rgb): real {
    (Abs(p.r - q.r) + Abs(p.g - q.g) + Abs(p.b - q.b)) as real / 3.0
  }

  /** The three channels of a pixel differ by more than 15 on average. */
  predicate DiffersAt(a: Frame, b: Frame, y: int, x: int)
    requires 0 <= y < a.height == b.height && 0 <= x < a.width == b.width
  {
    MeanDifference(a.pixels[y][x], b.pixels[y][x]) > 15.0
  }

  /** The pixels of a rectangle that differ. */
  ghost function Differing(a: Frame, b: Frame, y0: nat, y1: nat, x0: nat, x1: nat): set<(int, int)>
    requires y1 <= a.height == b.height && x1 <= a.width == b.width
  {
    set y, x | y0 <= y < y1 && x0 <= x < x1 && DiffersAt(a, b, y, x) :: (y, x)
  }

  /** The true entries of a rectangle, and of one row of it. */
  ghost function Marked(m: Mask, y0: nat, y1: nat, x0: nat, x1: nat): set<(int, int)>
    requires y1 <= |m| && forall y | y0 <= y < y1 :: x1 <= |m[y]|
  {
    set y, x | y0 <= y < y1 && x0 <= x < x1 && m[y][x] :: (y, x)
  }

  ghost function MarkedIn(row: seq<bool>, y: nat, x0: nat, x1: nat): set<(int, int)>
    requires x1 <= |row|
  {
    set x | x0 <= x < x1 && row[x] :: (y, x)
  }

  lemma {:induction false} RowCountIs(row: seq<bool>, y: nat, x0: nat, x1: nat)
    requires x0 <= x1 <= |row|
    ensures RowCount(row, x0, x1) == |MarkedIn(row, y, x0, x1)|
  {
    if x0 == x1 {
      assert MarkedIn(row, y, x0, x1) == {};
    } else {
      RowCountIs(row, y, x0, x1 - 1);
      assert MarkedIn(row, y, x0, x1) == MarkedIn(row, y, x0, x1 - 1) + if row[x1 - 1] then {(y, x1 - 1)} else {};
    }
  }

  lemma MarkedNext(m: Mask, y0: nat, y1: nat, x0: nat, x1: nat)
    requires y0 <= y1 < |m| && forall y | y0 <= y <= y1 :: x1 <= |m[y]|
    ensures Marked(m, y0, y1 + 1, x0, x1) == Marked(m, y0, y1, x0, x1) + MarkedIn(m[y1], y1, x0, x1)
    ensures Marked(m, y0, y1, x0, x1) !! MarkedIn(m[y1], y1, x0, x1)
  {
  }

  lemma {:induction false} CountIsMarked(m: Mask, y0: nat, y1: nat, x0: nat, x1: nat)
    requires y0 <= y1 <= |m| && x0 <= x1 && forall y | y0 <= y < y1 :: x1 <= |m[y]|
    ensures Count(m, y0, y1, x0, x1) == |Marked(m, y0, y1, x0, x1)|
  {
    if y0 == y1 {
      assert Marked(m, y0, y1, x0, x1) == {};
    } else {
      CountIsMarked(m, y0, y1 - 1, x0, x1);
      RowCountIs(m[y1 - 1], y1 - 1, x0, x1);
      MarkedNext(m, y0, y1 - 1, x0, x1);
    }
  }

  lemma CountIs(a: Frame, b: Frame, y0: nat, y1: nat, x0: nat, x1: nat)
    requires y0 <= y1 <= a.height == b.height && x0 <= x1 <= a.width == b.width
    ensures Count(ChangedMask(a, b), y0, y1, x0, x1) == |Differing(a, b, y0, y1, x0, x1)|
  {
    var m := ChangedMask(a, b);
    CountIsMarked(m, y0, y1, x0, x1);
    forall y, x | y0 <= y < y1 && x0 <= x < x1 ensures m[y][x] <==> DiffersAt(a, b, y, x) {
      MaskIs(a, b, y, x);
    }
    assert Marked(m, y0, y1, x0, x1) == Differing(a, b, y0, y1, x0, x1);
  }

  lemma MaskIs(a: Frame, b: Frame, y: nat, x: nat)
    requires y < a.height == b.height && x < a.width == b.width
    ensures ChangedMask(a, b)[y][x] <==> DiffersAt(a, b, y, x)
  {
  }

  /** A 64-pixel square of the frame, or what there is of it, of which more than a
      tenth differs. */
  ghost predicate Differs(a: Frame, b: Frame, r: Region)
    requires a.height == b.height && a.width == b.width
  {
    && r.y < a.height && r.x < a.width && r.y % 64 == 0 && r.x % 64 == 0
    && r.h == Min(64, a.height - r.y) && r.w == Min(64, a.width - r.x)
    && r.changed == |Differing(a, b, r.y, r.y + r.h, r.x, r.x + r.w)| && 10 * r.changed > r.h * r.w
  }

  lemma DiffersIsHot(a: Frame, b: Frame, r: Region)
    requires a.height == b.height && a.width == b.width
    ensures HotCell(ChangedMask(a, b), a.height, a.width, r) <==> Differs(a, b, r)
  {
    if r.y < a.height && r.x < a.width {
      var ch, cw := Min(64, a.height - r.y), Min(64, a.width - r.x);
      CountIs(a, b, r.y, r.y + ch, r.x, r.x + cw);
    }
  }

  /** The comparison says that the screen changed exactly when the sizes differ, the
      frame is empty, or at least one pixel in two hundred differs; and then it
      reports exactly the squares of which more than a tenth differs. */
  lemma DiffIsExact(before: Frame, after: Frame)
    ensures var d := DiffOf(before, after);
            if before.height != after.height || before.width != after.width then d == Diff(true, [])
            else
              var h, w := before.height, before.width;
              && (d.changed <==> h * w == 0 || 200 * |Differing(before, after, 0, h, 0, w)| >= h * w)
              && (forall r :: r in d.regions <==> d.changed && Differs(before, after, r))
              && InOrder(d.regions)
  {
    if before.height == after.height && before.width == after.width {
      var m, h, w := ChangedMask(before, after), before.height, before.width;
      CountIs(before, after, 0, h, 0, w);
      forall r ensures r in Reported(m, h, w) <==> Differs(before, after, r) {
        ReportedExactly(m, h, w, r);
        DiffersIsHot(before, after, r);
      }
      ReportedInOrder(m, h, w);
    }
  }

  // ---------------------------------------------------------------------
  // Coverage
  // ---------------------------------------------------------------------

  ghost predicate Covered(regions: seq<Region>, py: int, px: int) {
    exists r :: r in regions && r.Contains(py, px)
  }

  /** The changed pixels outside every region. */
  ghost function Uncovered(m: Mask, regions: seq<Region>): (u: Mask)
    ensures |u| == |m| && forall y | 0 <= y < |m| :: |u[y]| == |m[y]|
  {
    seq(|m|, y requires 0 <= y < |m| =>
      seq(|m[y]|, x requires 0 <= x < |m[y]| => m[y][x] && !Covered(regions, y, x)))
  }

  lemma {:induction false} CountMonotone(m: Mask, u: Mask, y0: nat, y1: nat, x0: nat, x1: nat)
    requires y0 <= y1 <= |m| == |u| && x0 <= x1
    requires forall y | y0 <= y < y1 :: x1 <= |m[y]| && x1 <= |u[y]|
    requires forall y, x | y0 <= y < y1 && x0 <= x < x1 :: u[y][x] ==> m[y][x]
    ensures Count(u, y0, y1, x0, x1) <= Count(m, y0, y1, x0, x1)
  {
    if y0 < y1 {
      CountMonotone(m, u, y0, y1 - 1, x0, x1);
      RowMonotone(m[y1 - 1], u[y1 - 1], x0, x1);
    }
  }

  lemma {:induction false} RowMonotone(row: seq<bool>, sub: seq<bool>, x0: nat, x1: nat)
    requires x0 <= x1 <= |row| && x1 <= |sub| && forall x | x0 <= x < x1 :: sub[x] ==> row[x]
    ensures RowCount(sub, x0, x1) <= RowCount(row, x0, x1)
  {
    if x0 < x1 { RowMonotone(row, sub, x0, x1 - 1); }
  }

  lemma {:induction false} CountNone(u: Mask, y0: nat, y1: nat, x0: nat, x1: nat)
    requires y0 <= y1 <= |u| && x0 <= x1 && forall y | y0 <= y < y1 :: x1 <= |u[y]|
    requires forall y, x | y0 <= y < y1 && x0 <= x < x1 :: !u[y][x]
    ensures Count(u, y0, y1, x0, x1) == 0
  {
    if y0 < y1 {
      CountNone(u, y0, y1 - 1, x0, x1);
      RowNone(u[y1 - 1], x0, x1);
    }
  }

  lemma {:induction false} RowNone(row: seq<bool>, x0: nat, x1: nat)
    requires x0 <= x1 <= |row| && forall x | x0 <= x < x1 :: !row[x]
    ensures RowCount(row, x0, x1) == 0
  {
    if x0 < x1 { RowNone(row, x0, x1 - 1); }
  }

  /** At most a tenth of any cell is changed and uncovered. */
  lemma CellUncovered(m: Mask, h: nat, w: nat, gy: nat, gx: nat)
    requires Sized(m, h, w) && GridOrigin(gy, gx, h, w)
    ensures var c := Cell(m, h, w, gy, gx);
            10 * Cell(Uncovered(m, Reported(m, h, w)), h, w, gy, gx).changed <= c.h * c.w
  {
    var c, regions := Cell(m, h, w, gy, gx), Reported(m, h, w);
    var u := Uncovered(m, regions);
    ReportedExactly(m, h, w, c);
    if Hot(c) {
      CoveredCell(m, regions, c);
    } else {
      CountMonotone(m, u, gy, gy + c.h, gx, gx + c.w);
    }
  }

  lemma CoveredCell(m: Mask, regions: seq<Region>, c: Region)
    requires c in regions && c.y + c.h <= |m| && forall y | 0 <= y < |m| :: c.x + c.w <= |m[y]|
    ensures Count(Uncovered(m, regions), c.y, c.y + c.h, c.x, c.x + c.w) == 0
  {
    var u := Uncovered(m, regions);
    forall y, x | c.y <= y < c.y + c.h && c.x <= x < c.x + c.w ensures !u[y][x] {
      assert c in regions && c.Contains(y, x);
    }
    CountNone(u, c.y, c.y + c.h, c.x, c.x + c.w);
  }

  lemma {:induction false} BandUncovered(m: Mask, h: nat, w: nat, gy: nat, gx: nat)
    requires Sized(m, h, w) && gy < h && gy % GRID == 0 && gx % GRID == 0
    ensures 10 * BandTotal(Uncovered(m, Reported(m, h, w)), h, w, gy, gx)
            <= if gx >= w then 0 else Min(GRID, h - gy) * (w - gx)
    decreases w - gx
  {
    if gx < w {
      NextGridLine(gx, gx);
      BandUncovered(m, h, w, gy, gx + GRID);
      CellUncovered(m, h, w, gy, gx);
      BandArea(Min(GRID, h - gy), Min(GRID, w - gx), w - gx);
    }
  }

  lemma BandArea(height: nat, first: nat, all: nat)
    requires first <= all
    ensures height * first + height * (all - first) == height * all
    ensures first == all ==> height * (all - first) == 0
  {
  }

  lemma BandsArea(first: nat, all: nat, w: nat)
    requires first <= all
    ensures first * w + (all - first) * w == all * w
    ensures first == all ==> (all - first) * w == 0
  {
  }

  lemma {:induction false} UncoveredTotal(m: Mask, h: nat, w: nat, gy: nat)
    requires Sized(m, h, w) && gy % GRID == 0
    ensures 10 * CellTotal(Uncovered(m, Reported(m, h, w)), h, w, gy) <= if gy >= h then 0 else (h - gy) * w
    decreases h - gy
  {
    if gy < h {
      NextGridLine(gy, gy);
      UncoveredTotal(m, h, w, gy + GRID);
      BandUncovered(m, h, w, gy, 0);
      BandsArea(Min(GRID, h - gy), h - gy, w);
    }
  }

  /** Whatever changed, the changed pixels outside every reported region are at
      most a tenth of the frame. */
  lemma CoverageBound(m: Mask, h: nat, w: nat)
    requires Sized(m, h, w)
    ensures 10 * Count(Uncovered(m, Reported(m, h, w)), 0, h, 0, w) <= h * w
  {
    var u := Uncovered(m, Reported(m, h, w));
    UncoveredTotal(m, h, w, 0);
    CountConserved(u, h, w);
  }

  lemma UncoveredOfNone(m: Mask)
    ensures Uncovered(m, []) == m
  {
    var u := Uncovered(m, []);
    forall y | 0 <= y < |m| ensures u[y] == m[y] {
      assert forall x | 0 <= x < |m[y]| :: !Covered([], y, x);
    }
  }

  /** A change of more than a tenth of the frame always names at least one region. */
  lemma LargeChangeIsLocated(before: Frame, after: Frame)
    requires before.height == after.height && before.width == after.width
    requires 10 * Count(ChangedMask(before, after), 0, before.height, 0, before.width) > before.height * before.width
    ensures DiffOf(before, after).changed && DiffOf(before, after).regions != []
  {
    var m := ChangedMask(before, after);
    CoverageBound(m, before.height, before.width);
    UncoveredOfNone(m);
  }

  lemma MaskSymmetric(a: Frame, b: Frame)
    requires a.height == b.height && a.width == b.width
    ensures ChangedMask(a, b) == ChangedMask(b, a)
  {
    var ab, ba := ChangedMask(a, b), ChangedMask(b, a);
    forall y | 0 <= y < a.height ensures ab[y] == ba[y] {
      assert forall x | 0 <= x < a.width :: ab[y][x] == ba[y][x];
    }
  }

  /** Comparing is symmetric, and a frame never differs from itself. */
  lemma DiffSymmetric(before: Frame, after: Frame)
    ensures DiffOf(before, after) == DiffOf(after, before)
    ensures before.height * before.width > 0 ==> DiffOf(before, before) == Diff(false, [])
  {
    if before.height == after.height && before.width == after.width {
      MaskSymmetric(before, after);
    }
    var m := ChangedMask(before, before);
    CountNone(m, 0, before.height, 0, before.width);
  }
}
