/**
 Capacity trend estimation (agent/storage_admin.py, CapacityTrendTracker).

 The estimator fits a straight line to `used_bytes` over time and divides the
 available space by its slope. Timestamps and quotients are exact reals here;
 the clock is a parameter.
 */
module CapacityTrend {
  import opened Options

  datatype CapacitySnapshot = CapacitySnapshot(
    pool: string, timestamp: real, usedBytes: int, availBytes: int, totalBytes: int)

  /** One line of `zpool list`: either it parses, or it is skipped. */
  datatype ListLine = Malformed | Parsed(pool: string, used: int, avail: int, total: int)

  const RETENTION_SECONDS: real := 7776000.0  // 90 days
  const WEEK_HOURS: int := 168

  // ---------------------------------------------------------------------
  // History
  // ---------------------------------------------------------------------

  function Retained(h: seq<CapacitySnapshot>, cutoff: real): seq<CapacitySnapshot> {
    if h == [] then []
    else (if h[0].timestamp > cutoff then [h[0]] else []) + Retained(h[1..], cutoff)
  }

  function OfPool(h: seq<CapacitySnapshot>, pool: string, cutoff: real): seq<CapacitySnapshot> {
    if h == [] then []
    else (if h[0].pool == pool && h[0].timestamp > cutoff then [h[0]] else []) + OfPool(h[1..], pool, cutoff)
  }

  function GetHistory(h: seq<CapacitySnapshot>, pool: string, hours: int, now: real): seq<CapacitySnapshot> {
    OfPool(h, pool, now - hours as real * 3600.0)
  }

  function Sampled(lines: seq<ListLine>, now: real): seq<CapacitySnapshot> {
    if lines == [] then []
    else
      Sampled(lines[..|lines| - 1], now) +
      match lines[|lines| - 1]
      case Malformed => []
      case Parsed(pool, used, avail, total) => [CapacitySnapshot(pool, now, used, avail, total)]
  }

  ghost predicate TimeOrdered(h: seq<CapacitySnapshot>) {
    forall i, j | 0 <= i < j < |h| :: h[i].timestamp <= h[j].timestamp
  }

  /** After the cutoff, and of the pool asked for, if one is. */
  ghost predicate Wanted(s: CapacitySnapshot, pool: Option<string>, cutoff: real) {
    s.timestamp > cutoff && (pool == None || s.pool == pool.value)
  }

  /** `kept` is exactly the wanted entries of h, in the same order; `at` says where
      each was. */
  ghost predicate Keeps(h: seq<CapacitySnapshot>, kept: seq<CapacitySnapshot>, pool: Option<string>, cutoff: real,
                        at: seq<nat>) {
    && |at| == |kept|
    && (forall k | 0 <= k < |at| :: at[k] < |h| && kept[k] == h[at[k]])
    && (forall j, k | 0 <= j < k < |at| :: at[j] < at[k])
    && (forall i: nat | i < |h| :: i in at <==> Wanted(h[i], pool, cutoff))
  }

  ghost predicate Pruned(h: seq<CapacitySnapshot>, kept: seq<CapacitySnapshot>, cutoff: real) {
    exists at :: Keeps(h, kept, None, cutoff, at)
  }

  class CapacityTrendTracker {
    var history: seq<CapacitySnapshot>

    constructor ()
      ensures history == []
    {
      history := [];
    }

    /** Drops exactly the entries of 90 days ago or older, keeps the others in
        order, and changes no estimate made from now on. */
    method Save(now: real)
      modifies this
      ensures history == Retained(old(history), now - RETENTION_SECONDS)
      ensures Pruned(old(history), history, now - 90.0 * 86400.0)
      ensures forall pool, later | now <= later :: Estimate(pool, later) == old(Estimate(pool, later))
    {
      ghost var before := history;
      history := Retained(history, now - RETENTION_SECONDS);
      ghost var at := RetainedKeeps(before, now - RETENTION_SECONDS);
      forall pool, later | now <= later ensures Estimate(pool, later) == old(Estimate(pool, later)) {
        PruningInvisible(before, pool, WEEK_HOURS, now, later);
      }
    }

    /** Samples every pool at one instant, in the order listed, then prunes. A clock that never runs
        backwards keeps the history time-ordered. */
    method TakeSnapshot(lines: seq<ListLine>, now: real)
      modifies this
      ensures history == Retained(old(history) + Sampled(lines, now), now - RETENTION_SECONDS)
      ensures exists sampled: seq<CapacitySnapshot> ::
                && LinesOf(sampled) == ParsedOnly(lines) && (forall s | s in sampled :: s.timestamp == now)
                && Pruned(old(history) + sampled, history, now - 90.0 * 86400.0)
      ensures old(TimeOrdered(history)) && (forall s | s in old(history) :: s.timestamp <= now)
              ==> TimeOrdered(history) && forall s | s in history :: s.timestamp <= now
    {
      var i := 0;
      while i < |lines|
        invariant 0 <= i <= |lines|
        invariant history == old(history) + Sampled(lines[..i], now)
      {
        assert lines[..i + 1][..i] == lines[..i];
        match lines[i] {
          case Malformed =>
          case Parsed(pool, used, avail, total) =>
            history := history + [CapacitySnapshot(pool, now, used, avail, total)];
        }
        i := i + 1;
      }
      assert lines[..|lines|] == lines;
      SampledIs(lines, now);
      RetainedOrdered(history, now - RETENTION_SECONDS);
      Save(now);
    }

    function Estimate(pool: string, now: real): Option<real>
      reads this
    {
      EstimateOf(history, pool, now)
    }
  }

  /** The estimate from a history: a fit over the pool's last week. */
  function EstimateOf(h: seq<CapacitySnapshot>, pool: string, now: real): Option<real> {
    EstimateDaysToFull(GetHistory(h, pool, WEEK_HOURS, now))
  }

  /** The lines that snapshots say. */
  function LinesOf(snaps: seq<CapacitySnapshot>): seq<ListLine> {
    if snaps == [] then []
    else
      var last := snaps[|snaps| - 1];
      LinesOf(snaps[..|snaps| - 1]) + [Parsed(last.pool, last.usedBytes, last.availBytes, last.totalBytes)]
  }

  function ParsedOnly(lines: seq<ListLine>): seq<ListLine> {
    if lines == [] then []
    else ParsedOnly(lines[..|lines| - 1]) + if lines[|lines| - 1].Parsed? then [lines[|lines| - 1]] else []
  }

  /** Each line that parses gives one snapshot, which says what the line said. */
  lemma {:induction false} SampledIs(lines: seq<ListLine>, now: real)
    ensures LinesOf(Sampled(lines, now)) == ParsedOnly(lines)
    ensures forall s | s in Sampled(lines, now) :: s.timestamp == now
  {
    if lines == [] {
    } else {
      var before, all := Sampled(lines[..|lines| - 1], now), Sampled(lines, now);
      SampledIs(lines[..|lines| - 1], now);
      if lines[|lines| - 1].Parsed? {
        assert all[..|all| - 1] == before;
      } else {
        assert all == before;
      }
    }
  }

  lemma {:induction false} RetainedOrdered(h: seq<CapacitySnapshot>, cutoff: real)
    ensures forall s | s in Retained(h, cutoff) :: s in h && s.timestamp > cutoff
    ensures TimeOrdered(h) ==> TimeOrdered(Retained(h, cutoff))
  {
    if h == [] {
    } else {
      RetainedOrdered(h[1..], cutoff);
    }
  }

  lemma {:induction false} RetainedSnoc(h: seq<CapacitySnapshot>, s: CapacitySnapshot, cutoff: real)
    ensures Retained(h + [s], cutoff) == Retained(h, cutoff) + if s.timestamp > cutoff then [s] else []
  {
    if h == [] {
      assert h + [s] == [s];
    } else {
      assert (h + [s])[1..] == h[1..] + [s];
      RetainedSnoc(h[1..], s, cutoff);
    }
  }

  lemma {:induction false} RetainedKeeps(h: seq<CapacitySnapshot>, cutoff: real) returns (at: seq<nat>)
    ensures Keeps(h, Retained(h, cutoff), None, cutoff, at)
  {
    if h == [] {
      at := [];
    } else {
      var init, last := h[..|h| - 1], h[|h| - 1];
      assert h == init + [last];
      RetainedSnoc(init, last, cutoff);
      var before := RetainedKeeps(init, cutoff);
      at := KeepsOneMore(init, last, Retained(init, cutoff), None, cutoff, before);
    }
  }

  lemma KeepsOneMore(h: seq<CapacitySnapshot>, s: CapacitySnapshot, kept: seq<CapacitySnapshot>, pool: Option<string>,
                     cutoff: real, before: seq<nat>)
    returns (at: seq<nat>)
    requires Keeps(h, kept, pool, cutoff, before)
    ensures Keeps(h + [s], kept + (if Wanted(s, pool, cutoff) then [s] else []), pool, cutoff, at)
  {
    assert forall i: nat | i in before :: i < |h|;
    at := before + if Wanted(s, pool, cutoff) then [|h|] else [];
  }

  lemma {:induction false} OfPoolConcat(a: seq<CapacitySnapshot>, b: seq<CapacitySnapshot>, pool: string, cutoff: real)
    ensures OfPool(a + b, pool, cutoff) == OfPool(a, pool, cutoff) + OfPool(b, pool, cutoff)
  {
    if a == [] {
      assert a + b == b;
    } else {
      assert (a + b)[1..] == a[1..] + b;
      OfPoolConcat(a[1..], b, pool, cutoff);
    }
  }

  lemma OfPoolOne(s: CapacitySnapshot, pool: string, cutoff: real)
    ensures OfPool([s], pool, cutoff) == if Wanted(s, Some(pool), cutoff) then [s] else []
  {
    assert [s][1..] == [];
  }

  lemma {:induction false} OfPoolKeeps(h: seq<CapacitySnapshot>, pool: string, cutoff: real) returns (at: seq<nat>)
    ensures Keeps(h, OfPool(h, pool, cutoff), Some(pool), cutoff, at)
  {
    if h == [] {
      at := [];
    } else {
      var init, last := h[..|h| - 1], h[|h| - 1];
      assert h == init + [last];
      OfPoolConcat(init, [last], pool, cutoff);
      OfPoolOne(last, pool, cutoff);
      var before := OfPoolKeeps(init, pool, cutoff);
      at := KeepsOneMore(init, last, OfPool(init, pool, cutoff), Some(pool), cutoff, before);
    }
  }

  /** A pool's history is, in order, exactly its own snapshots of the last hours. */
  lemma HistoryIs(h: seq<CapacitySnapshot>, pool: string, hours: int, now: real) returns (at: seq<nat>)
    ensures Keeps(h, GetHistory(h, pool, hours, now), Some(pool), now - 3600.0 * hours as real, at)
  {
    at := OfPoolKeeps(h, pool, now - hours as real * 3600.0);
  }

  /** The estimate is made from exactly the pool's own snapshots of the last seven
      days. */
  lemma EstimateIsOfLastWeek(h: seq<CapacitySnapshot>, pool: string, now: real)
    returns (snaps: seq<CapacitySnapshot>, at: seq<nat>)
    ensures Keeps(h, snaps, Some(pool), now - 7.0 * 86400.0, at)
    ensures EstimateOf(h, pool, now) == EstimateDaysToFull(snaps)
  {
    snaps := GetHistory(h, pool, WEEK_HOURS, now);
    at := HistoryIs(h, pool, WEEK_HOURS, now);
  }

  /** A snapshot of another pool, wherever it is added or removed, changes no
      history and no estimate. */
  lemma OtherPoolsInvisible(before: seq<CapacitySnapshot>, other: CapacitySnapshot, after: seq<CapacitySnapshot>,
                            pool: string, hours: int, now: real)
    requires other.pool != pool
    ensures GetHistory(before + [other] + after, pool, hours, now) == GetHistory(before + after, pool, hours, now)
    ensures EstimateOf(before + [other] + after, pool, now) == EstimateOf(before + after, pool, now)
  {
    OneInvisible(before, other, after, pool, now - hours as real * 3600.0);
    OneInvisible(before, other, after, pool, now - WEEK_HOURS as real * 3600.0);
  }

  lemma OneInvisible(before: seq<CapacitySnapshot>, other: CapacitySnapshot, after: seq<CapacitySnapshot>, pool: string,
                     cutoff: real)
    requires other.pool != pool
    ensures OfPool(before + [other] + after, pool, cutoff) == OfPool(before + after, pool, cutoff)
  {
    OfPoolConcat(before + [other], after, pool, cutoff);
    OfPoolConcat(before, [other], pool, cutoff);
    OfPoolConcat(before, after, pool, cutoff);
    OfPoolOne(other, pool, cutoff);
  }

  lemma {:induction false} OfPoolAfterRetained(h: seq<CapacitySnapshot>, pool: string, keep: real, cutoff: real)
    requires keep <= cutoff
    ensures OfPool(Retained(h, keep), pool, cutoff) == OfPool(h, pool, cutoff)
  {
    if h == [] {
    } else {
      OfPoolAfterRetained(h[1..], pool, keep, cutoff);
      var rest := Retained(h[1..], keep);
      if h[0].timestamp > keep {
        assert Retained(h, keep)[1..] == rest;
      } else {
        assert Retained(h, keep) == rest;
      }
    }
  }

  /** Pruning at `saved` is invisible to every later query that looks back at
      most 90 days; in particular to the weekly estimate. */
  lemma PruningInvisible(h: seq<CapacitySnapshot>, pool: string, hours: int, saved: real, now: real)
    requires hours <= 2160 && saved <= now
    ensures GetHistory(Retained(h, saved - RETENTION_SECONDS), pool, hours, now) == GetHistory(h, pool, hours, now)
  {
    OfPoolAfterRetained(h, pool, saved - RETENTION_SECONDS, now - hours as real * 3600.0);
  }

  // ---------------------------------------------------------------------
  // Regression
  // ---------------------------------------------------------------------

  function Sum(v: seq<real>): real {
    if v == [] then 0.0 else v[0] + Sum(v[1..])
  }

  function Mean(v: seq<real>): real
    requires v != []
  {
    Sum(v) / |v| as real
  }

  /** Sum of u[i] * v[i]. */
  function Dot(u: seq<real>, v: seq<real>): real
    requires |u| == |v|
  {
    if u == [] then 0.0 else u[0] * v[0] + Dot(u[1..], v[1..])
  }

  /** Deviations from m. */
  function Deviations(v: seq<real>, m: real): (d: seq<real>)
    ensures |d| == |v|
  {
    seq(|v|, i requires 0 <= i < |v| => v[i] - m)
  }

  function Hours(snaps: seq<CapacitySnapshot>): (xs: seq<real>)
    ensures |xs| == |snaps|
  {
    seq(|snaps|, i requires 0 <= i < |snaps| => (snaps[i].timestamp - snaps[0].timestamp) / 3600.0)
  }

  function Used(snaps: seq<CapacitySnapshot>): (ys: seq<real>)
    ensures |ys| == |snaps|
  {
    seq(|snaps|, i requires 0 <= i < |snaps| => snaps[i].usedBytes as real)
  }

  function Num(xs: seq<real>, ys: seq<real>): real
    requires |xs| == |ys| > 0
  {
    Dot(Deviations(xs, Mean(xs)), Deviations(ys, Mean(ys)))
  }

  function Den(xs: seq<real>): real
    requires |xs| > 0
  {
    Num(xs, xs)
  }

  function EstimateDaysToFull(snaps: seq<CapacitySnapshot>): Option<real> {
    if |snaps| < 2 then None
    else
      var xs, ys := Hours(snaps), Used(snaps);
      var num, den := Num(xs, ys), Den(xs);
      if den == 0.0 then None
      else
        var slopePerHour := num / den;
        if slopePerHour <= 0.0 then None
        else
          var avail := snaps[|snaps| - 1].availBytes;
          if avail <= 0 then Some(0.0) else Some(avail as real / slopePerHour / 24.0)
  }

  const GIB: real := 1073741824.0

  function GrowthRateGbPerDay(snaps: seq<CapacitySnapshot>): real {
    if |snaps| < 2 then 0.0
    else
      var first, last := snaps[0], snaps[|snaps| - 1];
      var elapsedDays := (last.timestamp - first.timestamp) / 86400.0;
      if elapsedDays <= 0.0 then 0.0
      else (last.usedBytes - first.usedBytes) as real / GIB / elapsedDays
  }

  // ---------------------------------------------------------------------
  // Least squares
  // ---------------------------------------------------------------------

  /** Residuals of the line y = a + b * x. */
  function Residuals(xs: seq<real>, ys: seq<real>, a: real, b: real): (r: seq<real>)
    requires |xs| == |ys|
    ensures |r| == |xs|
  {
    seq(|xs|, i requires 0 <= i < |xs| => ys[i] - (a + b * xs[i]))
  }

  function SquaredError(xs: seq<real>, ys: seq<real>, a: real, b: real): real
    requires |xs| == |ys|
  {
    var r := Residuals(xs, ys, a, b);
    Dot(r, r)
  }

  /** No line has a smaller sum of squared residuals. */
  ghost predicate IsLeastSquares(xs: seq<real>, ys: seq<real>, a: real, b: real)
    requires |xs| == |ys|
  {
    forall a', b' :: SquaredError(xs, ys, a, b) <= SquaredError(xs, ys, a', b')
  }

  ghost predicate TwoDistinct(xs: seq<real>) {
    exists i, j :: 0 <= i < |xs| && 0 <= j < |xs| && xs[i] != xs[j]
  }

  ghost function Add(u: seq<real>, v: seq<real>): (r: seq<real>)
    requires |u| == |v|
    ensures |r| == |u|
  {
    seq(|u|, i requires 0 <= i < |u| => u[i] + v[i])
  }

  ghost function Scale(k: real, u: seq<real>): (r: seq<real>)
    ensures |r| == |u|
  {
    seq(|u|, i requires 0 <= i < |u| => k * u[i])
  }

  ghost function Ones(n: nat): (r: seq<real>)
    ensures |r| == n
  {
    seq(n, i => 1.0)
  }

  lemma {:induction false} DotSymmetric(u: seq<real>, v: seq<real>)
    requires |u| == |v|
    ensures Dot(u, v) == Dot(v, u)
  {
    if u == [] {
    } else {
      DotSymmetric(u[1..], v[1..]);
    }
  }

  lemma {:induction false} DotAdd(u: seq<real>, v: seq<real>, w: seq<real>)
    requires |u| == |v| == |w|
    ensures Dot(Add(u, v), w) == Dot(u, w) + Dot(v, w)
  {
    if u == [] {
    } else {
      DotAdd(u[1..], v[1..], w[1..]);
      assert Add(u, v)[1..] == Add(u[1..], v[1..]);
      assert (u[0] + v[0]) * w[0] == u[0] * w[0] + v[0] * w[0];
    }
  }

  lemma ScaleTail(k: real, u: seq<real>)
    requires u != []
    ensures Scale(k, u)[1..] == Scale(k, u[1..]) && Scale(k, u)[0] == k * u[0]
  {
    forall i | 0 <= i < |u| - 1 ensures Scale(k, u)[1..][i] == Scale(k, u[1..])[i] {
      assert u[1..][i] == u[i + 1];
    }
  }

  lemma {:induction false} DotScale(k: real, u: seq<real>, w: seq<real>)
    requires |u| == |w|
    ensures Dot(Scale(k, u), w) == k * Dot(u, w)
    ensures Dot(u, w) == 0.0 ==> Dot(Scale(k, u), w) == 0.0
  {
    if u == [] {
    } else {
      DotScale(k, u[1..], w[1..]);
      ScaleTail(k, u);
      Distribute(k, u[0], w[0], Dot(u[1..], w[1..]));
    }
  }

  lemma Distribute(k: real, u: real, w: real, d: real)
    ensures k * u * w + k * d == k * (u * w + d)
  {
  }

  lemma Pythagoras(u: seq<real>, v: seq<real>)
    requires |u| == |v| && Dot(u, v) == 0.0
    ensures Dot(Add(u, v), Add(u, v)) == Dot(u, u) + Dot(v, v)
  {
    var p := Add(u, v);
    DotAdd(u, v, p);
    DotSymmetric(u, p);
    DotSymmetric(v, p);
    DotAdd(u, v, u);
    DotAdd(u, v, v);
    DotSymmetric(u, v);
  }

  lemma {:induction false} DotOnes(v: seq<real>, m: real)
    ensures Dot(Deviations(v, m), Ones(|v|)) == Sum(v) - |v| as real * m
  {
    if v == [] {
    } else {
      DotOnes(v[1..], m);
      assert Deviations(v, m)[1..] == Deviations(v[1..], m);
      assert Ones(|v|)[1..] == Ones(|v[1..]|);
      assert |v| as real * m == |v[1..]| as real * m + m;
    }
  }

  lemma MeanCentres(v: seq<real>)
    requires v != []
    ensures Dot(Deviations(v, Mean(v)), Ones(|v|)) == 0.0
  {
    DotOnes(v, Mean(v));
  }

  ghost function Times(x: real, y: real): real { x * y }

  lemma TimesPositive(x: real, y: real)
    requires x > 0.0 && y > 0.0
    ensures Times(x, y) > 0.0
  {
  }

  lemma SquareSign(x: real)
    ensures Times(x, x) >= 0.0
    ensures x != 0.0 ==> Times(x, x) > 0.0
  {
    if x > 0.0 { TimesPositive(x, x); }
    if x < 0.0 {
      TimesPositive(-x, -x);
      assert Times(-x, -x) == Times(x, x);
    }
  }

  lemma {:induction false} SquaresNonNegative(v: seq<real>)
    ensures Dot(v, v) >= 0.0
    ensures (exists i :: 0 <= i < |v| && v[i] != 0.0) ==> Dot(v, v) > 0.0
    ensures (forall i | 0 <= i < |v| :: v[i] == 0.0) ==> Dot(v, v) == 0.0
  {
    if v == [] {
    } else {
      SquaresNonNegative(v[1..]);
      var tail := Dot(v[1..], v[1..]);
      SquareSign(v[0]);
      assert Dot(v, v) == Times(v[0], v[0]) + tail;
      if v[0] == 0.0 && exists i :: 0 <= i < |v| && v[i] != 0.0 {
        var i :| 0 <= i < |v| && v[i] != 0.0;
        assert v[1..][i - 1] != 0.0;
      }
    }
  }

  /** The denominator vanishes exactly when all the x values coincide. */
  lemma DenominatorPositive(xs: seq<real>)
    requires xs != []
    ensures Den(xs) >= 0.0
    ensures Den(xs) > 0.0 <==> TwoDistinct(xs)
  {
    var d := Deviations(xs, Mean(xs));
    SquaresNonNegative(d);
    if !TwoDistinct(xs) {
      MeanOfConstant(xs);
    } else {
      var i, j :| 0 <= i < |xs| && 0 <= j < |xs| && xs[i] != xs[j];
      assert d[i] != 0.0 || d[j] != 0.0;
    }
  }

  lemma {:induction false} SumOfConstant(v: seq<real>, k: real)
    requires forall i | 0 <= i < |v| :: v[i] == k
    ensures Sum(v) == |v| as real * k
  {
    if v == [] {
    } else {
      SumOfConstant(v[1..], k);
      assert |v| as real * k == |v[1..]| as real * k + k;
    }
  }

  lemma MeanOfConstant(v: seq<real>)
    requires v != [] && !TwoDistinct(v)
    ensures Mean(v) == v[0]
  {
    SumOfConstant(v, v[0]);
    assert |v| as real * v[0] / |v| as real == v[0];
  }

  /** The residuals dy - slope * dx are orthogonal to the constants and to dx. */
  lemma FitIsOrthogonal(dx: seq<real>, dy: seq<real>, slope: real)
    requires |dx| == |dy|
    requires Dot(dx, Ones(|dx|)) == 0.0 && Dot(dy, Ones(|dx|)) == 0.0
    requires slope * Dot(dx, dx) == Dot(dx, dy)
    ensures var fit := Add(dy, Scale(-slope, dx));
            Dot(fit, Ones(|dx|)) == 0.0 && Dot(fit, dx) == 0.0
  {
    DotAdd(dy, Scale(-slope, dx), Ones(|dx|));
    DotAdd(dy, Scale(-slope, dx), dx);
    DotScale(-slope, dx, Ones(|dx|));
    DotScale(-slope, dx, dx);
    DotSymmetric(dy, dx);
  }

  /** Pythagoras for fit + k * dx + c * ones, three mutually orthogonal parts. */
  lemma TiltedNorm(dx: seq<real>, fit: seq<real>, k: real, c: real)
    requires |dx| == |fit|
    requires Dot(dx, Ones(|dx|)) == 0.0 && Dot(fit, Ones(|dx|)) == 0.0 && Dot(fit, dx) == 0.0
    ensures var tilt, shift := Scale(k, dx), Scale(c, Ones(|dx|));
            var r := Add(Add(fit, tilt), shift);
            Dot(r, r) == Dot(fit, fit) + Dot(tilt, tilt) + Dot(shift, shift)
  {
    var ones := Ones(|dx|);
    var tilt := Scale(k, dx);
    OrthogonalScaled(k, dx, fit);
    Pythagoras(fit, tilt);
    OrthogonalSum(fit, k, dx, ones);
    OrthogonalScaled(c, ones, Add(fit, tilt));
    Pythagoras(Add(fit, tilt), Scale(c, ones));
  }

  lemma OrthogonalSum(v: seq<real>, k: real, u: seq<real>, w: seq<real>)
    requires |u| == |v| == |w| && Dot(v, w) == 0.0 && Dot(u, w) == 0.0
    ensures Dot(Add(v, Scale(k, u)), w) == 0.0
  {
    DotAdd(v, Scale(k, u), w);
    DotScale(k, u, w);
  }

  lemma OrthogonalScaled(k: real, u: seq<real>, v: seq<real>)
    requires |u| == |v| && Dot(v, u) == 0.0
    ensures Dot(v, Scale(k, u)) == 0.0
  {
    DotSymmetric(v, u);
    DotScale(k, u, v);
    DotSymmetric(v, Scale(k, u));
  }

  lemma ResidualsAreTilted(xs: seq<real>, ys: seq<real>, mx: real, my: real, slope: real, a: real, b: real, k: real,
                           c: real)
    requires |xs| == |ys| && k == slope - b && c == my - b * mx - a
    ensures var dx := Deviations(xs, mx);
            var fit := Add(Deviations(ys, my), Scale(-slope, dx));
            Residuals(xs, ys, a, b) == Add(Add(fit, Scale(k, dx)), Scale(c, Ones(|xs|)))
  {
    var dx := Deviations(xs, mx);
    var fit := Add(Deviations(ys, my), Scale(-slope, dx));
    var tilted := Add(Add(fit, Scale(k, dx)), Scale(c, Ones(|xs|)));
    forall i | 0 <= i < |xs| ensures Residuals(xs, ys, a, b)[i] == tilted[i] {
      ResidualAt(xs[i], ys[i], mx, my, slope, a, b, k, c);
    }
  }

  lemma ResidualAt(x: real, y: real, mx: real, my: real, slope: real, a: real, b: real, k: real, c: real)
    requires k == slope - b && c == my - b * mx - a
    ensures (y - my) + -slope * (x - mx) + k * (x - mx) + c * 1.0 == y - (a + b * x)
  {
    assert (slope - b) * (x - mx) == slope * (x - mx) - b * x + b * mx;
  }

  lemma TiltedFit(dx: seq<real>, dy: seq<real>, slope: real, k: real, c: real)
    requires |dx| == |dy|
    requires Dot(dx, Ones(|dx|)) == 0.0 && Dot(dy, Ones(|dx|)) == 0.0
    requires slope * Dot(dx, dx) == Dot(dx, dy)
    ensures var fit, tilt, shift := Add(dy, Scale(-slope, dx)), Scale(k, dx), Scale(c, Ones(|dx|));
            var r := Add(Add(fit, tilt), shift);
            Dot(r, r) == Dot(fit, fit) + Dot(tilt, tilt) + Dot(shift, shift)
  {
    FitIsOrthogonal(dx, dy, slope);
    TiltedNorm(dx, Add(dy, Scale(-slope, dx)), k, c);
  }

  /** The error of a line, once its residuals and the fitted ones are known. */
  lemma ErrorFromResiduals(xs: seq<real>, ys: seq<real>, a0: real, slope: real, a: real, b: real,
                           fit: seq<real>, tilt: seq<real>, shift: seq<real>)
    requires |xs| == |ys| == |fit| == |tilt| == |shift|
    requires Residuals(xs, ys, a, b) == Add(Add(fit, tilt), shift) && Residuals(xs, ys, a0, slope) == fit
    requires var r := Add(Add(fit, tilt), shift); Dot(r, r) == Dot(fit, fit) + Dot(tilt, tilt) + Dot(shift, shift)
    ensures SquaredError(xs, ys, a, b) == SquaredError(xs, ys, a0, slope) + Dot(tilt, tilt) + Dot(shift, shift)
  {
  }

  lemma TiltedFitOfLine(xs: seq<real>, ys: seq<real>, slope: real, k: real, c: real)
    requires |xs| == |ys| > 0 && slope * Den(xs) == Num(xs, ys)
    ensures var dx, dy := Deviations(xs, Mean(xs)), Deviations(ys, Mean(ys));
            var fit, tilt, shift := Add(dy, Scale(-slope, dx)), Scale(k, dx), Scale(c, Ones(|xs|));
            var r := Add(Add(fit, tilt), shift);
            Dot(r, r) == Dot(fit, fit) + Dot(tilt, tilt) + Dot(shift, shift)
  {
    MeanCentres(xs);
    MeanCentres(ys);
    TiltedFit(Deviations(xs, Mean(xs)), Deviations(ys, Mean(ys)), slope, k, c);
  }

  /** The error of any line is the fitted line's plus the squared lengths of what it tilts and shifts by. */
  lemma ErrorOfLine(xs: seq<real>, ys: seq<real>, slope: real, a0: real, a: real, b: real, k: real, c: real)
    requires |xs| == |ys| > 0 && slope * Den(xs) == Num(xs, ys) && a0 == Mean(ys) - slope * Mean(xs)
    requires k == slope - b && c == Mean(ys) - b * Mean(xs) - a
    ensures var tilt, shift := Scale(k, Deviations(xs, Mean(xs))), Scale(c, Ones(|xs|));
            SquaredError(xs, ys, a, b) == SquaredError(xs, ys, a0, slope) + Dot(tilt, tilt) + Dot(shift, shift)
  {
    var dx, dy := Deviations(xs, Mean(xs)), Deviations(ys, Mean(ys));
    TiltedFitOfLine(xs, ys, slope, k, c);
    ResidualsAreTilted(xs, ys, Mean(xs), Mean(ys), slope, a, b, k, c);
    FittedResiduals(xs, ys, Mean(xs), Mean(ys), slope, a0);
    ErrorFromResiduals(xs, ys, a0, slope, a, b, Add(dy, Scale(-slope, dx)), Scale(k, dx), Scale(c, Ones(|xs|)));
  }

  lemma FittedResiduals(xs: seq<real>, ys: seq<real>, mx: real, my: real, slope: real, a0: real)
    requires |xs| == |ys| && a0 == my - slope * mx
    ensures Residuals(xs, ys, a0, slope) == Add(Deviations(ys, my), Scale(-slope, Deviations(xs, mx)))
  {
    var fit := Add(Deviations(ys, my), Scale(-slope, Deviations(xs, mx)));
    forall i | 0 <= i < |xs| ensures Residuals(xs, ys, a0, slope)[i] == fit[i] {
      ResidualAt(xs[i], ys[i], mx, my, slope, a0, slope, 0.0, 0.0);
    }
  }

  /** The code's slope, through the means, is the one line of least squared error:
      no line does better, and every other line does strictly worse. */
  lemma SlopeIsLeastSquares(xs: seq<real>, ys: seq<real>, slope: real, a0: real)
    requires |xs| == |ys| && TwoDistinct(xs)
    requires slope * Den(xs) == Num(xs, ys) && a0 == Mean(ys) - slope * Mean(xs)
    ensures IsLeastSquares(xs, ys, a0, slope)
    ensures forall a, b | IsLeastSquares(xs, ys, a, b) :: a == a0 && b == slope
  {
    forall a, b
      ensures SquaredError(xs, ys, a0, slope) <= SquaredError(xs, ys, a, b)
      ensures IsLeastSquares(xs, ys, a, b) ==> a == a0 && b == slope
    {
      var k, c := slope - b, Mean(ys) - b * Mean(xs) - a;
      ErrorOfLine(xs, ys, slope, a0, a, b, k, c);
      var dx := Deviations(xs, Mean(xs));
      SquaresNonNegative(Scale(k, dx));
      SquaresNonNegative(Scale(c, Ones(|xs|)));
      if k != 0.0 {
        TiltShows(xs, k);
      } else if c != 0.0 {
        assert Scale(c, Ones(|xs|))[0] == c;
      }
    }
  }

  lemma TiltShows(xs: seq<real>, k: real)
    requires TwoDistinct(xs) && k != 0.0
    ensures var tilt := Scale(k, Deviations(xs, Mean(xs))); Dot(tilt, tilt) > 0.0
  {
    var tilt := Scale(k, Deviations(xs, Mean(xs)));
    SquaresNonNegative(tilt);
    var i, j :| 0 <= i < |xs| && 0 <= j < |xs| && xs[i] != xs[j];
    var d := if xs[i] != Mean(xs) then i else j;
    NonZeroProduct(k, xs[d] - Mean(xs));
    assert tilt[d] != 0.0;
  }

  lemma NonZeroProduct(x: real, y: real)
    requires x != 0.0 && y != 0.0
    ensures x * y != 0.0
  {
  }

  // ---------------------------------------------------------------------
  // Chebyshev's sum inequality
  // ---------------------------------------------------------------------

  ghost predicate NonDecreasing(v: seq<real>) {
    forall i, j | 0 <= i < j < |v| :: v[i] <= v[j]
  }

  /** x and y deviate from their pivots in the same direction at every index. */
  lemma {:induction false} SameSignDot(u: seq<real>, v: seq<real>)
    requires |u| == |v|
    requires forall i | 0 <= i < |u| :: (u[i] >= 0.0 && v[i] >= 0.0) || (u[i] <= 0.0 && v[i] <= 0.0)
    ensures Dot(u, v) >= 0.0
    ensures (exists i :: 0 <= i < |u| && u[i] != 0.0 && v[i] != 0.0) ==> Dot(u, v) > 0.0
  {
    if u == [] {
    } else {
      SameSignDot(u[1..], v[1..]);
      SameSignTimes(u[0], v[0]);
      assert Dot(u, v) == Times(u[0], v[0]) + Dot(u[1..], v[1..]);
      if i :| 0 < i < |u| && u[i] != 0.0 && v[i] != 0.0 {
        assert u[1..][i - 1] != 0.0 && v[1..][i - 1] != 0.0;
      }
    }
  }

  lemma SameSignTimes(x: real, y: real)
    requires (x >= 0.0 && y >= 0.0) || (x <= 0.0 && y <= 0.0)
    ensures Times(x, y) >= 0.0
    ensures x != 0.0 && y != 0.0 ==> Times(x, y) > 0.0
  {
    if x > 0.0 && y > 0.0 { TimesPositive(x, y); }
    if x < 0.0 && y < 0.0 {
      TimesPositive(-x, -y);
      assert Times(-x, -y) == Times(x, y);
    }
  }

  /** Because the x deviations sum to zero, the numerator does not depend on the pivot taken for y. */
  lemma PivotFree(xs: seq<real>, ys: seq<real>, pivot: real)
    requires |xs| == |ys| > 0
    ensures Num(xs, ys) == Dot(Deviations(xs, Mean(xs)), Deviations(ys, pivot))
  {
    var dx, dy := Deviations(xs, Mean(xs)), Deviations(ys, Mean(ys));
    var shift := Scale(Mean(ys) - pivot, Ones(|xs|));
    MeanCentres(xs);
    OrthogonalScaled(Mean(ys) - pivot, Ones(|xs|), dx);
    assert Deviations(ys, pivot) == Add(dy, shift);
    DotSymmetric(dx, Add(dy, shift));
    DotAdd(dy, shift, dx);
    DotSymmetric(dx, dy);
    DotSymmetric(dx, shift);
  }

  /** The sum of n copies of m. */
  ghost function Copies(n: nat, m: real): real {
    if n == 0 then 0.0 else m + Copies(n - 1, m)
  }

  lemma TimesNext(n: real, m: real)
    ensures Times(n + 1.0, m) == m + Times(n, m)
  {
  }

  lemma {:induction false} CopiesIs(n: nat, m: real)
    ensures Copies(n, m) == Times(n as real, m)
  {
    if n == 0 {
    } else {
      CopiesIs(n - 1, m);
      TimesNext((n - 1) as real, m);
    }
  }

  lemma {:induction false} SumAbove(v: seq<real>, m: real)
    requires forall i | 0 <= i < |v| :: v[i] >= m
    ensures Sum(v) >= Copies(|v|, m)
    ensures (exists i :: 0 <= i < |v| && v[i] > m) ==> Sum(v) > Copies(|v|, m)
  {
    if v == [] {
    } else {
      SumAbove(v[1..], m);
      if i :| 0 < i < |v| && v[i] > m { assert v[1..][i - 1] > m; }
    }
  }

  lemma {:induction false} SumBelow(v: seq<real>, m: real)
    requires forall i | 0 <= i < |v| :: v[i] <= m
    ensures Sum(v) <= Copies(|v|, m)
    ensures (exists i :: 0 <= i < |v| && v[i] < m) ==> Sum(v) < Copies(|v|, m)
  {
    if v == [] {
    } else {
      SumBelow(v[1..], m);
      if i :| 0 < i < |v| && v[i] < m { assert v[1..][i - 1] < m; }
    }
  }

  /** The mean of a never-decreasing sequence lies between its ends, strictly unless it is constant. */
  lemma EndsAroundMean(v: seq<real>)
    requires v != [] && NonDecreasing(v)
    ensures v[0] <= Mean(v) <= v[|v| - 1]
    ensures TwoDistinct(v) ==> v[0] < Mean(v) < v[|v| - 1]
  {
    var m := Mean(v);
    MeanTimes(v);
    CopiesIs(|v|, m);
    if v[0] >= m { SumAbove(v, m); }
    if v[|v| - 1] <= m { SumBelow(v, m); }
  }

  /** The first index at or above m. */
  lemma {:induction false} Crossing(v: seq<real>, m: real) returns (k: nat)
    requires v != [] && v[|v| - 1] >= m
    ensures k < |v| && v[k] >= m && forall i | 0 <= i < k :: v[i] < m
  {
    if v[0] >= m {
      k := 0;
    } else {
      var k' := Crossing(v[1..], m);
      k := k' + 1;
      forall i | 0 <= i < k ensures v[i] < m {
        if i > 0 { assert v[1..][i - 1] < m; }
      }
    }
  }

  lemma Chebyshev(xs: seq<real>, ys: seq<real>)
    requires |xs| == |ys| > 0 && NonDecreasing(xs) && NonDecreasing(ys)
    ensures Num(xs, ys) >= 0.0
    ensures TwoDistinct(xs) && TwoDistinct(ys) ==> Num(xs, ys) > 0.0
  {
    var m, n := Mean(xs), |xs|;
    EndsAroundMean(xs);
    var k := Crossing(xs, m);
    PivotFree(xs, ys, ys[k]);
    var dx, dy := Deviations(xs, m), Deviations(ys, ys[k]);
    SameSignDot(dx, dy);
    if TwoDistinct(xs) && TwoDistinct(ys) {
      // Both ends of xs are off the mean, and one end of ys is off the pivot.
      var i, j :| 0 <= i < n && 0 <= j < n && ys[i] != ys[j];
      if ys[0] != ys[k] {
        assert dx[0] != 0.0 && dy[0] != 0.0;
      } else {
        assert dx[n - 1] != 0.0 && dy[n - 1] != 0.0;
      }
    }
  }

  lemma {:induction false} NumNegated(u: seq<real>, v: seq<real>)
    requires |u| == |v|
    ensures Dot(u, Scale(-1.0, v)) == -Dot(u, v)
  {
    DotSymmetric(u, Scale(-1.0, v));
    DotScale(-1.0, v, u);
    DotSymmetric(u, v);
  }

  /** Never-increasing usage never gives a positive numerator. */
  lemma ChebyshevDown(xs: seq<real>, ys: seq<real>)
    requires |xs| == |ys| > 0 && NonDecreasing(xs)
    requires forall i, j | 0 <= i < j < |ys| :: ys[i] >= ys[j]
    ensures Num(xs, ys) <= 0.0
  {
    var dx, my := Deviations(xs, Mean(xs)), Mean(ys);
    var flipped := Scale(-1.0, ys);
    Chebyshev(xs, flipped);
    PivotFree(xs, flipped, -my);
    assert Deviations(flipped, -my) == Scale(-1.0, Deviations(ys, my));
    NumNegated(dx, Deviations(ys, my));
  }

  // ---------------------------------------------------------------------
  // What the estimate means
  // ---------------------------------------------------------------------

  ghost predicate DistinctTimes(snaps: seq<CapacitySnapshot>) {
    exists i, j :: 0 <= i < |snaps| && 0 <= j < |snaps| && snaps[i].timestamp != snaps[j].timestamp
  }

  lemma HoursDistinct(snaps: seq<CapacitySnapshot>)
    ensures DistinctTimes(snaps) <==> TwoDistinct(Hours(snaps))
  {
    var xs := Hours(snaps);
    if DistinctTimes(snaps) {
      var i, j :| 0 <= i < |snaps| && 0 <= j < |snaps| && snaps[i].timestamp != snaps[j].timestamp;
      assert xs[i] != xs[j];
    }
  }

  /** Whatever line a + b x fits the usage best in the least-squares sense, the
      estimate is the available space over its slope, in days; and there is no
      estimate exactly when the timestamps coincide or that slope is not positive. */
  lemma EstimateFollowsBestLine(snaps: seq<CapacitySnapshot>, a: real, b: real)
    requires DistinctTimes(snaps) && IsLeastSquares(Hours(snaps), Used(snaps), a, b)
    ensures var avail := snaps[|snaps| - 1].availBytes;
            EstimateDaysToFull(snaps)
            == if b <= 0.0 then None else if avail <= 0 then Some(0.0) else Some(avail as real / b / 24.0)
  {
    var xs, ys := Hours(snaps), Used(snaps);
    HoursDistinct(snaps);
    DenominatorPositive(xs);
    var slope := Num(xs, ys) / Den(xs);
    SlopeIsLeastSquares(xs, ys, slope, Mean(ys) - slope * Mean(xs));
  }

  lemma NoEstimateWithoutSpread(snaps: seq<CapacitySnapshot>)
    requires !DistinctTimes(snaps)
    ensures EstimateDaysToFull(snaps) == None
  {
    if snaps != [] {
      HoursDistinct(snaps);
      DenominatorPositive(Hours(snaps));
    }
  }

  lemma HoursOrdered(snaps: seq<CapacitySnapshot>)
    requires TimeOrdered(snaps)
    ensures NonDecreasing(Hours(snaps))
  {
  }

  /** Usage that never falls and does rise always has a finite, non-negative estimate. */
  lemma GrowingPoolFills(snaps: seq<CapacitySnapshot>)
    requires TimeOrdered(snaps) && DistinctTimes(snaps)
    requires forall i, j | 0 <= i < j < |snaps| :: snaps[i].usedBytes <= snaps[j].usedBytes
    requires exists i, j :: 0 <= i < |snaps| && 0 <= j < |snaps| && snaps[i].usedBytes != snaps[j].usedBytes
    ensures EstimateDaysToFull(snaps).Some? && EstimateDaysToFull(snaps).value >= 0.0
  {
    var xs, ys := Hours(snaps), Used(snaps);
    HoursOrdered(snaps);
    HoursDistinct(snaps);
    DenominatorPositive(xs);
    var i, j :| 0 <= i < |snaps| && 0 <= j < |snaps| && snaps[i].usedBytes != snaps[j].usedBytes;
    assert ys[i] != ys[j];
    Chebyshev(xs, ys);
    QuotientPositive(Num(xs, ys), Den(xs));
    var avail := snaps[|snaps| - 1].availBytes;
    if avail > 0 {
      QuotientPositive(avail as real, Num(xs, ys) / Den(xs));
    }
  }

  lemma QuotientPositive(x: real, y: real)
    requires y > 0.0
    ensures x > 0.0 <==> x / y > 0.0
    ensures x >= 0.0 <==> x / y >= 0.0
  {
  }

  /** Usage that never rises never has an estimate. */
  lemma ShrinkingPoolNeverFills(snaps: seq<CapacitySnapshot>)
    requires TimeOrdered(snaps)
    requires forall i, j | 0 <= i < j < |snaps| :: snaps[i].usedBytes >= snaps[j].usedBytes
    ensures EstimateDaysToFull(snaps) == None
  {
    if snaps != [] {
      var xs, ys := Hours(snaps), Used(snaps);
      HoursOrdered(snaps);
      DenominatorPositive(xs);
      ChebyshevDown(xs, ys);
      if Den(xs) > 0.0 { QuotientPositive(Num(xs, ys), Den(xs)); }
    }
  }

  /** Bytes per hour. */
  ghost predicate ExactlyLinear(snaps: seq<CapacitySnapshot>, m: real) {
    forall i | 0 <= i < |snaps| ::
      snaps[i].usedBytes as real
      == snaps[0].usedBytes as real + m * ((snaps[i].timestamp - snaps[0].timestamp) / 3600.0)
  }

  lemma {:induction false} ZeroDot(v: seq<real>)
    requires forall i | 0 <= i < |v| :: v[i] == 0.0
    ensures Dot(v, v) == 0.0
  {
    if v == [] {
    } else {
      ZeroDot(v[1..]);
    }
  }

  /** A line through all the points is a least-squares line. */
  lemma ExactLineIsBest(snaps: seq<CapacitySnapshot>, m: real)
    requires snaps != [] && ExactlyLinear(snaps, m)
    ensures IsLeastSquares(Hours(snaps), Used(snaps), snaps[0].usedBytes as real, m)
  {
    var xs, ys, a := Hours(snaps), Used(snaps), snaps[0].usedBytes as real;
    var r := Residuals(xs, ys, a, m);
    forall i | 0 <= i < |r| ensures r[i] == 0.0 {
      assert xs[i] == (snaps[i].timestamp - snaps[0].timestamp) / 3600.0;
    }
    ZeroDot(r);
    forall a', b' ensures SquaredError(xs, ys, a, m) <= SquaredError(xs, ys, a', b') {
      SquaresNonNegative(Residuals(xs, ys, a', b'));
    }
  }

  /** On a pool that fills at exactly m bytes an hour the estimate is exact, and
      the growth rate is the same slope in GiB a day. */
  lemma LinearPoolIsExact(snaps: seq<CapacitySnapshot>, m: real)
    requires TimeOrdered(snaps) && DistinctTimes(snaps) && ExactlyLinear(snaps, m)
    requires m > 0.0 && snaps[|snaps| - 1].availBytes > 0
    ensures var avail := snaps[|snaps| - 1].availBytes as real;
            EstimateDaysToFull(snaps) == Some(avail / m / 24.0)
    ensures GrowthRateGbPerDay(snaps) == m * 24.0 / 1073741824.0
  {
    ExactLineIsBest(snaps, m);
    EstimateFollowsBestLine(snaps, snaps[0].usedBytes as real, m);
    LinearGrowthRate(snaps, m);
  }

  lemma LinearGrowthRate(snaps: seq<CapacitySnapshot>, m: real)
    requires TimeOrdered(snaps) && DistinctTimes(snaps) && ExactlyLinear(snaps, m)
    ensures GrowthRateGbPerDay(snaps) == m * 24.0 / 1073741824.0
  {
    var first, last := snaps[0], snaps[|snaps| - 1];
    var elapsed := last.timestamp - first.timestamp;
    SpanPositive(snaps);
    assert (last.usedBytes - first.usedBytes) as real == m * (elapsed / 3600.0);
    LinearGrowth(m, elapsed);
  }

  /** On any history the growth rate, times the days from the first snapshot to the
      last, is the rise between them in GiB. */
  lemma GrowthIsRise(snaps: seq<CapacitySnapshot>)
    requires TimeOrdered(snaps) && DistinctTimes(snaps)
    ensures var first, last := snaps[0], snaps[|snaps| - 1];
            var days := (last.timestamp - first.timestamp) / 86400.0;
            GrowthRateGbPerDay(snaps) * days * 1073741824.0 == (last.usedBytes - first.usedBytes) as real
  {
    SpanPositive(snaps);
    var first, last := snaps[0], snaps[|snaps| - 1];
    RateTimesDays((last.usedBytes - first.usedBytes) as real, (last.timestamp - first.timestamp) / 86400.0);
  }

  lemma RateTimesDays(rise: real, days: real)
    requires days > 0.0
    ensures rise / GIB / days * days * 1073741824.0 == rise
  {
    assert rise / GIB / days * days == rise / GIB;
  }

  lemma LinearGrowth(m: real, elapsed: real)
    requires elapsed > 0.0
    ensures m * (elapsed / 3600.0) / GIB / (elapsed / 86400.0) == m * 24.0 / GIB
  {
    var d := elapsed / 86400.0;
    assert elapsed / 3600.0 == 24.0 * d;
    assert m * (24.0 * d) / GIB == (m * 24.0 / GIB) * d;
    assert (m * 24.0 / GIB) * d / d == m * 24.0 / GIB;
  }

  function Shifted(snaps: seq<CapacitySnapshot>, delay: real): (r: seq<CapacitySnapshot>)
    ensures |r| == |snaps|
  {
    seq(|snaps|, i requires 0 <= i < |snaps| => snaps[i].(timestamp := snaps[i].timestamp + delay))
  }

  /** Two samplings of two pools, an hour apart: the estimate for the first pool is
      what it has left over what it took in that hour. */
  lemma TwoSamplings(pool: string, other: string, u1: int, a1: int, u2: int, a2: int, v1: int, b1: int, v2: int,
                     b2: int, total: int, now: real)
    requires pool != other && u1 < u2 && a2 > 0
    ensures var first := Sampled([Parsed(pool, u1, a1, total), Parsed(other, v1, b1, total)], now);
            var second := Sampled([Parsed(other, v2, b2, total), Parsed(pool, u2, a2, total)], now + 3600.0);
            EstimateOf(first + second, pool, now + 3600.0) == Some(a2 as real / (u2 - u1) as real / 24.0)
  {
    var later := now + 3600.0;
    var s1, s2 := CapacitySnapshot(pool, now, u1, a1, total), CapacitySnapshot(pool, later, u2, a2, total);
    var o1, o2 := CapacitySnapshot(other, now, v1, b1, total), CapacitySnapshot(other, later, v2, b2, total);
    SampledTwo(Parsed(pool, u1, a1, total), Parsed(other, v1, b1, total), now);
    SampledTwo(Parsed(other, v2, b2, total), Parsed(pool, u2, a2, total), later);
    TwoOfFour(s1, o1, o2, s2, pool, later);
    EstimateOfTwo(s1, s2);
  }

  lemma TwoOfFour(s1: CapacitySnapshot, o1: CapacitySnapshot, o2: CapacitySnapshot, s2: CapacitySnapshot, pool: string,
                  now: real)
    requires s1.pool == pool && s2.pool == pool && o1.pool != pool && o2.pool != pool
    requires s1.timestamp == now - 3600.0 && s2.timestamp == now
    ensures GetHistory([s1, o1] + [o2, s2], pool, WEEK_HOURS, now) == [s1, s2]
  {
    var cutoff := now - WEEK_HOURS as real * 3600.0;
    assert [s1, o1] + [o2, s2] == [s1] + [o1] + [o2, s2] && [s1] + [o2, s2] == [s1] + [o2] + [s2];
    OneInvisible([s1], o1, [o2, s2], pool, cutoff);
    OneInvisible([s1], o2, [s2], pool, cutoff);
    OfPoolConcat([s1], [s2], pool, cutoff);
    OfPoolOne(s1, pool, cutoff);
    OfPoolOne(s2, pool, cutoff);
  }

  lemma EstimateOfTwo(s1: CapacitySnapshot, s2: CapacitySnapshot)
    requires s2.timestamp == s1.timestamp + 3600.0 && s1.usedBytes < s2.usedBytes && s2.availBytes > 0
    ensures EstimateDaysToFull([s1, s2]) == Some(s2.availBytes as real / (s2.usedBytes - s1.usedBytes) as real / 24.0)
  {
    var snaps := [s1, s2];
    assert snaps[0].timestamp != snaps[1].timestamp;
    LinearPoolIsExact(snaps, (s2.usedBytes - s1.usedBytes) as real);
  }

  lemma SampledTwo(l1: ListLine, l2: ListLine, now: real)
    requires l1.Parsed? && l2.Parsed?
    ensures Sampled([l1, l2], now) == [CapacitySnapshot(l1.pool, now, l1.used, l1.avail, l1.total),
                                       CapacitySnapshot(l2.pool, now, l2.used, l2.avail, l2.total)]
  {
    var lines, none: seq<ListLine> := [l1, l2], [];
    assert lines[..1] == [l1] && lines[1] == l2 && [l1][..0] == none;
    assert Sampled(none, now) == [];
    assert Sampled([l1], now) == [CapacitySnapshot(l1.pool, now, l1.used, l1.avail, l1.total)];
  }

  /** Only differences of timestamps matter. */
  lemma ShiftInvariant(snaps: seq<CapacitySnapshot>, delay: real)
    ensures EstimateDaysToFull(Shifted(snaps, delay)) == EstimateDaysToFull(snaps)
    ensures GrowthRateGbPerDay(Shifted(snaps, delay)) == GrowthRateGbPerDay(snaps)
  {
    assert Hours(Shifted(snaps, delay)) == Hours(snaps);
    assert Used(Shifted(snaps, delay)) == Used(snaps);
  }

  // ---------------------------------------------------------------------
  // When the two indicators agree
  // ---------------------------------------------------------------------

  /** The sum over all pairs i < j of (xs[j] - xs[i]) (ys[j] - ys[i]). */
  function PairSum(xs: seq<real>, ys: seq<real>): real
    requires |xs| == |ys|
  {
    if xs == [] then 0.0
    else Dot(Deviations(xs[1..], xs[0]), Deviations(ys[1..], ys[0])) + PairSum(xs[1..], ys[1..])
  }

  /** n times a sum of products, less the product of the sums. */
  ghost function Spread(n: real, dot: real, su: real, sv: real): real {
    Times(n, dot) - Times(su, sv)
  }

  /** A sum of products after moving both factors, by a and by b. */
  ghost function Moved(n: real, dot: real, su: real, sv: real, a: real, b: real): real {
    dot - Times(a, sv) - Times(b, su) + Times(n, Times(a, b))
  }

  lemma MovedStep(x: real, y: real, n: real, dot: real, su: real, sv: real, a: real, b: real)
    ensures Times(x - a, y - b) + Moved(n, dot, su, sv, a, b) == Moved(n + 1.0, Times(x, y) + dot, x + su, y + sv, a, b)
  {
  }

  lemma {:induction false} DotOfDeviations(u: seq<real>, v: seq<real>, a: real, b: real)
    requires |u| == |v|
    ensures Dot(Deviations(u, a), Deviations(v, b)) == Moved(|u| as real, Dot(u, v), Sum(u), Sum(v), a, b)
  {
    if u == [] {
      MovedFromNothing(a, b);
    } else {
      var du, dv := Deviations(u, a), Deviations(v, b);
      assert du[1..] == Deviations(u[1..], a) && dv[1..] == Deviations(v[1..], b);
      DotOfDeviations(u[1..], v[1..], a, b);
      MovedStep(u[0], v[0], |u[1..]| as real, Dot(u[1..], v[1..]), Sum(u[1..]), Sum(v[1..]), a, b);
      DotStep(u, v);
      DotStep(du, dv);
    }
  }

  lemma MovedFromNothing(a: real, b: real)
    ensures Moved(0.0, 0.0, 0.0, 0.0, a, b) == 0.0
  {
  }

  lemma DotStep(u: seq<real>, v: seq<real>)
    requires |u| == |v| > 0
    ensures Dot(u, v) == Times(u[0], v[0]) + Dot(u[1..], v[1..])
  {
  }

  lemma SpreadStep(x: real, y: real, n: real, dot: real, su: real, sv: real)
    ensures Moved(n, dot, su, sv, x, y) + Spread(n, dot, su, sv) == Spread(n + 1.0, Times(x, y) + dot, x + su, y + sv)
  {
  }

  lemma {:induction false} PairSumIs(xs: seq<real>, ys: seq<real>)
    requires |xs| == |ys|
    ensures PairSum(xs, ys) == Spread(|xs| as real, Dot(xs, ys), Sum(xs), Sum(ys))
  {
    if xs == [] {
    } else {
      PairSumIs(xs[1..], ys[1..]);
      DotOfDeviations(xs[1..], ys[1..], xs[0], ys[0]);
      SpreadStep(xs[0], ys[0], |xs[1..]| as real, Dot(xs[1..], ys[1..]), Sum(xs[1..]), Sum(ys[1..]));
      DotStep(xs, ys);
    }
  }

  lemma MeanTimes(v: seq<real>)
    requires v != []
    ensures Sum(v) == Times(|v| as real, Mean(v))
  {
  }

  /** The numerator of the slope, times the number of points, is the pair sum. */
  lemma NumeratorIsPairSum(xs: seq<real>, ys: seq<real>)
    requires |xs| == |ys| > 0
    ensures Times(|xs| as real, Num(xs, ys)) == PairSum(xs, ys)
  {
    DotOfDeviations(xs, ys, Mean(xs), Mean(ys));
    PairSumIs(xs, ys);
    MeanTimes(xs);
    MeanTimes(ys);
    CentredTimes(|xs| as real, Mean(xs), Mean(ys), Dot(xs, ys), Sum(xs), Sum(ys));
  }

  lemma CentredTimes(n: real, mx: real, my: real, dot: real, sx: real, sy: real)
    requires sx == Times(n, mx) && sy == Times(n, my)
    ensures Times(n, Moved(n, dot, sx, sy, mx, my)) == Spread(n, dot, sx, sy)
  {
    assert mx * sy == n * (mx * my) && my * sx == n * (mx * my);
    assert n * (n * (mx * my)) == sx * sy;
  }

  lemma PositiveMultiple(n: real, x: real)
    requires n > 0.0
    ensures Times(n, x) > 0.0 <==> x > 0.0
  {
  }

  lemma EstimateIffPairSum(snaps: seq<CapacitySnapshot>)
    requires DistinctTimes(snaps)
    ensures EstimateDaysToFull(snaps).Some? <==> PairSum(Hours(snaps), Used(snaps)) > 0.0
  {
    var xs, ys := Hours(snaps), Used(snaps);
    HoursDistinct(snaps);
    DenominatorPositive(xs);
    NumeratorIsPairSum(xs, ys);
    PositiveMultiple(|xs| as real, Num(xs, ys));
    QuotientPositive(Num(xs, ys), Den(xs));
  }

  lemma GrowthIffRisen(snaps: seq<CapacitySnapshot>)
    requires TimeOrdered(snaps) && DistinctTimes(snaps)
    ensures GrowthRateGbPerDay(snaps) > 0.0 <==> snaps[|snaps| - 1].usedBytes > snaps[0].usedBytes
  {
    var first, last := snaps[0], snaps[|snaps| - 1];
    SpanPositive(snaps);
    var rise := (last.usedBytes - first.usedBytes) as real;
    QuotientPositive(rise, GIB);
    QuotientPositive(rise / GIB, (last.timestamp - first.timestamp) / 86400.0);
  }

  lemma SpanPositive(snaps: seq<CapacitySnapshot>)
    requires TimeOrdered(snaps) && DistinctTimes(snaps)
    ensures |snaps| >= 2 && snaps[|snaps| - 1].timestamp > snaps[0].timestamp
  {
    var first, last := snaps[0], snaps[|snaps| - 1];
    var i, j :| 0 <= i < |snaps| && 0 <= j < |snaps| && snaps[i].timestamp != snaps[j].timestamp;
    assert first.timestamp <= snaps[i].timestamp <= last.timestamp;
    assert first.timestamp <= snaps[j].timestamp <= last.timestamp;
  }

  /** Growth rate and estimate agree that a pool fills up. */
  predicate Agree(snaps: seq<CapacitySnapshot>) {
    GrowthRateGbPerDay(snaps) > 0.0 <==> EstimateDaysToFull(snaps).Some?
  }

  /** On every time-ordered history with two distinct timestamps the indicators
      agree exactly when the last usage is above the first just in case the pair
      sum of times and usage is positive; without two distinct timestamps they
      agree that there is nothing to say. */
  lemma IndicatorsAgreeExactly(snaps: seq<CapacitySnapshot>)
    requires TimeOrdered(snaps)
    ensures DistinctTimes(snaps) ==>
              (Agree(snaps) <==>
               (snaps[|snaps| - 1].usedBytes > snaps[0].usedBytes <==> PairSum(Hours(snaps), Used(snaps)) > 0.0))
    ensures !DistinctTimes(snaps) ==> Agree(snaps)
  {
    if DistinctTimes(snaps) {
      GrowthIffRisen(snaps);
      EstimateIffPairSum(snaps);
    } else {
      NoEstimateWithoutSpread(snaps);
    }
  }

  /** So they agree on usage that only ever rises, or only ever falls. */
  lemma MonotoneUsageAgrees(snaps: seq<CapacitySnapshot>)
    requires TimeOrdered(snaps) && DistinctTimes(snaps)
    ensures (forall i, j | 0 <= i < j < |snaps| :: snaps[i].usedBytes <= snaps[j].usedBytes) ==> Agree(snaps)
    ensures (forall i, j | 0 <= i < j < |snaps| :: snaps[i].usedBytes >= snaps[j].usedBytes)
            ==> Agree(snaps) && EstimateDaysToFull(snaps) == None
  {
    GrowthIffRisen(snaps);
    if forall i, j | 0 <= i < j < |snaps| :: snaps[i].usedBytes >= snaps[j].usedBytes {
      ShrinkingPoolNeverFills(snaps);
    } else if forall i, j | 0 <= i < j < |snaps| :: snaps[i].usedBytes <= snaps[j].usedBytes {
      var i, j :| 0 <= i < j < |snaps| && snaps[i].usedBytes < snaps[j].usedBytes;
      assert snaps[0].usedBytes <= snaps[i].usedBytes && snaps[j].usedBytes <= snaps[|snaps| - 1].usedBytes;
      GrowingPoolFills(snaps);
    }
  }

  lemma SpikeSum(xs: seq<real>)
    requires xs == [0.0, 1.0, 2.0, 3.0]
    ensures Sum(xs) == 6.0
  {
    assert [2.0, 3.0][1..] == [3.0] && [1.0, 2.0, 3.0][1..] == [2.0, 3.0] && xs[1..] == [1.0, 2.0, 3.0];
    assert Sum([3.0]) == 3.0 && Sum([2.0, 3.0]) == 5.0 && Sum([1.0, 2.0, 3.0]) == 6.0;
  }

  lemma SpikeDot(dx: seq<real>, ys: seq<real>)
    requires dx == [-1.5, -0.5, 0.5, 1.5] && ys == [0.0, 90.0, 0.0, 1.0]
    ensures Dot(dx, ys) == -43.5
  {
    assert dx[2..] == [0.5, 1.5] && ys[2..] == [0.0, 1.0];
    assert dx[1..][1..] == dx[2..] && ys[1..][1..] == ys[2..];
    assert [0.5, 1.5][1..] == [1.5] && [0.0, 1.0][1..] == [1.0];
    assert Dot([1.5], [1.0]) == 1.5;
    assert Dot([0.5, 1.5], [0.0, 1.0]) == 1.5;
    assert Dot(dx[1..], ys[1..]) == -43.5;
  }

  lemma SpikeNumerator(xs: seq<real>, ys: seq<real>)
    requires xs == [0.0, 1.0, 2.0, 3.0] && ys == [0.0, 90.0, 0.0, 1.0]
    ensures Num(xs, ys) == -43.5
  {
    SpikeSum(xs);
    PivotFree(xs, ys, 0.0);
    assert Deviations(xs, Mean(xs)) == [-1.5, -0.5, 0.5, 1.5];
    assert Deviations(ys, 0.0) == ys;
    SpikeDot(Deviations(xs, Mean(xs)), ys);
  }

  /** The two indicators can disagree: a pool whose growth rate is positive while
      the regression sees it shrinking. */
  lemma IndicatorsDisagree() returns (snaps: seq<CapacitySnapshot>)
    ensures TimeOrdered(snaps) && DistinctTimes(snaps)
    ensures GrowthRateGbPerDay(snaps) > 0.0 && EstimateDaysToFull(snaps) == None
  {
    var s0 := CapacitySnapshot("tank", 0.0, 0, 10, 100);
    var s1 := CapacitySnapshot("tank", 3600.0, 90, 10, 100);
    var s2 := CapacitySnapshot("tank", 7200.0, 0, 10, 100);
    var s3 := CapacitySnapshot("tank", 10800.0, 1, 10, 100);
    snaps := [s0, s1, s2, s3];
    assert snaps[0].timestamp != snaps[1].timestamp;
    var xs, ys := Hours(snaps), Used(snaps);
    assert xs == [0.0, 1.0, 2.0, 3.0] && ys == [0.0, 90.0, 0.0, 1.0];
    SpikeNumerator(xs, ys);
    HoursDistinct(snaps);
    DenominatorPositive(xs);
    QuotientPositive(43.5, Den(xs));
    assert Num(xs, ys) / Den(xs) <= 0.0;
  }
}
