/**
 * `generate_history_svg`: the geometry of the two stacked history charts (monthly on top,
 * yearly below).  The chart takes the top-N repositories by clone count, rolls each one's stored
 * snapshots into monthly and yearly buckets, puts every bucket of every repository on one shared
 * time axis per chart, scales all values of a chart into one shared value range, and draws three
 * polylines per repository (clones, unique clones, downloads).  The snapshot store is a parameter:
 * `readHistory(name)` stands for `read_history_from_db(name)`.
 */
module HistoryChart {
  import opened Wrappers
  import opened Text
  import opened Collections
  import opened Dates
  import opened Aggregator
  import opened Repos

  // ---------------------------------------------------------------- colours

  const Palette: seq<string> := ["#1f6feb", "#16a34a", "#f97316", "#e11d48", "#a78bfa", "#06b6d4"]
  const AltPalette: seq<string> := ["#60a5fa", "#34d399", "#fb923c", "#fb7185", "#c4b5fd", "#67e8f9"]

  /** The fixed colour of every downloads line. */
  const DownloadsColor: string := "#f59e0b"

  /** `color_for(idx, kind)`: the main palette for clone lines, the lighter one for any other kind,
      cycling every six repositories. */
  function ColorFor(idx: nat, kind: Metric): (c: string)
    ensures kind == Clones ==> c in Palette
    ensures kind != Clones ==> c in AltPalette
    ensures c != DownloadsColor
  {
    if kind == Clones then Palette[idx % |Palette|] else AltPalette[idx % |AltPalette|]
  }

  /** Repositories six places apart share colours, any six consecutive ones get six different
      colours, and a clone line never has the colour of a uniques line. */
  lemma ColorsDistinguishRepos(i: nat, j: nat, kind: Metric)
    ensures ColorFor(i + 6, kind) == ColorFor(i, kind)
    ensures i % 6 != j % 6 ==> ColorFor(i, kind) != ColorFor(j, kind)
    ensures ColorFor(i, Clones) != ColorFor(j, Uniques)
  {
    assert (i + 6) % 6 == i % 6;
    var a, b := i % 6, j % 6;
    assert Palette[a] == Palette[b] ==> a == b by {
      if a != b {
        assert Palette[a][1] != Palette[b][1] || Palette[a][2] != Palette[b][2];
      }
    }
    assert AltPalette[a] == AltPalette[b] ==> a == b by {
      if a != b {
        assert AltPalette[a][1] != AltPalette[b][1] || AltPalette[a][2] != AltPalette[b][2]
            || AltPalette[a][3] != AltPalette[b][3];
      }
    }
    assert Palette[a] != AltPalette[b] by {
      assert Palette[a][1] != AltPalette[b][1] || Palette[a][2] != AltPalette[b][2]
          || Palette[a][3] != AltPalette[b][3];
    }
  }

  // ---------------------------------------------------------------- geometry constants

  const Width: int := 900
  const MarginLeft: int := 80
  const MarginTop: int := 24
  const PlotW: int := Width - MarginLeft - 40
  const MonthlyPlotH: int := 180
  const YearlyPlotH: int := 120

  // ---------------------------------------------------------------- the time axis

  /** `sorted(list(dict.fromkeys(keys)))`: every key once, in chronological order. */
  function Axis(keys: seq<Date>): (axis: seq<Date>)
    ensures StrictlyAscending(axis)
    ensures forall d :: d in keys <==> d in axis
  {
    var d := Dedupe(keys);
    var axis := SortDates(d);
    forall x ensures x in d <==> x in axis {
      assert x in d <==> x in multiset(d);
      assert x in axis <==> x in multiset(axis);
    }
    axis
  }

  /** `month_tx` / `year_tx`: the centre of the plot when the axis has at most one key, otherwise
      the key's position on the axis spread evenly from the left edge to the right edge. */
  function AxisX(axis: seq<Date>, d: Date): (x: real)
    requires |axis| > 1 ==> d in axis
    ensures MarginLeft as real <= x <= (MarginLeft + PlotW) as real
    ensures |axis| <= 1 ==> x == MarginLeft as real + PlotW as real / 2.0
  {
    if |axis| <= 1 then MarginLeft as real + PlotW as real / 2.0
    else
      MarginLeft as real + Scale(IndexOf(axis, d), |axis| - 1, PlotW)
  }

  /** `(i / n) * w` in exact arithmetic: the share `i / n` of the length `w`. */
  function Scale(i: int, n: int, w: int): (r: real)
    requires n != 0
    ensures 0 <= i <= n && w >= 0 ==> 0.0 <= r <= w as real
  {
    ShareWithin(i, n, w);
    (i as real / n as real) * w as real
  }

  lemma ShareWithin(i: int, n: int, w: int)
    requires n != 0
    ensures 0 <= i <= n && w >= 0 ==> 0.0 <= (i as real / n as real) * w as real <= w as real
  {
    if 0 <= i <= n && w >= 0 {
      RealWithin(i as real, n as real, w as real);
    }
  }

  lemma RealWithin(a: real, d: real, h: real)
    requires 0.0 <= a <= d && d > 0.0 && h >= 0.0
    ensures 0.0 <= (a / d) * h <= h
  {
  }

  /** No share is nothing, the full share is the whole length, and a larger share is longer. */
  lemma ScaleEnds(n: int, w: int)
    requires n > 0
    ensures Scale(0, n, w) == 0.0 && Scale(n, n, w) == w as real
  {
    var d, h := n as real, w as real;
    RealEnds(d, h);
    assert Scale(0, n, w) == (0.0 / d) * h && Scale(n, n, w) == (d / d) * h;
  }

  lemma RealEnds(d: real, h: real)
    requires d > 0.0
    ensures (0.0 / d) * h == 0.0 && (d / d) * h == h
  {
  }

  lemma ScaleStep(i: int, j: int, n: int, w: int)
    requires i < j && n > 0 && w > 0
    ensures Scale(i, n, w) < Scale(j, n, w)
  {
    var a, b, d, h := i as real, j as real, n as real, w as real;
    RealStep(a, b, d, h);
    assert Scale(i, n, w) == (a / d) * h && Scale(j, n, w) == (b / d) * h;
  }

  /** Dividing by a positive number and multiplying by one keep a strict order. */
  lemma RealStep(a: real, b: real, d: real, h: real)
    requires a < b && d > 0.0 && h > 0.0
    ensures (a / d) * h < (b / d) * h
  {
  }

  /** On an axis of several keys, the first key sits on the left edge and the last on the right edge. */
  lemma AxisEnds(axis: seq<Date>)
    requires |axis| > 1 && StrictlyAscending(axis)
    ensures AxisX(axis, axis[0]) == MarginLeft as real
    ensures AxisX(axis, axis[|axis| - 1]) == (MarginLeft + PlotW) as real
  {
    var n := |axis|;
    assert IndexOf(axis, axis[0]) == 0;
    AscendingDistinct(axis);
    IndexOfDistinct(axis, n - 1);
    ScaleEnds(n - 1, PlotW);
  }

  /** A chronologically earlier key lies strictly further left. */
  lemma AxisOrder(axis: seq<Date>, a: Date, b: Date)
    requires |axis| > 1 && StrictlyAscending(axis) && a in axis && b in axis && Before(a, b)
    ensures AxisX(axis, a) < AxisX(axis, b)
  {
    var i, j := IndexOf(axis, a), IndexOf(axis, b);
    IndexBefore(axis, i, j);
    ScaleStep(i, j, |axis| - 1, PlotW);
  }

  lemma AscendingDistinct(s: seq<Date>)
    requires StrictlyAscending(s)
    ensures Distinct(s)
  {
    forall i, j | 0 <= i < j < |s| ensures s[i] != s[j] {
      assert Before(s[i], s[j]);
    }
  }

  /** In a strictly ascending axis, a key before another one has the smaller index. */
  lemma IndexBefore(axis: seq<Date>, i: nat, j: nat)
    requires StrictlyAscending(axis) && i < |axis| && j < |axis| && Before(axis[i], axis[j])
    ensures i < j
  {
  }

  // ---------------------------------------------------------------- the value axis

  /** `m_vmin`, `m_vmax`: the smallest value or 0 for no values, and the largest value when it is
      positive, otherwise 1. */
  function ValueRange(vals: seq<int>): (r: (int, int))
    ensures r.0 <= r.1
    ensures forall i :: 0 <= i < |vals| ==> r.0 <= vals[i] <= r.1
    ensures vals == [] ==> r == (0, 1)
    ensures vals != [] ==> r.0 in vals && (r.1 in vals || r.1 == 1)
    ensures r.0 == r.1 <==> vals != [] && r.0 > 0 && forall i :: 0 <= i < |vals| ==> vals[i] == r.0
  {
    var lo := if vals == [] then 0 else MinOf(vals);
    var hi := if vals != [] && MaxOf(vals) > 0 then MaxOf(vals) else 1;
    (lo, hi)
  }

  /** `map_y(v, vmin, vmax, plot_h)`: the middle of the plot for a flat range, otherwise the value's
      place in the range measured up from the bottom edge. */
  function MapY(v: int, vmin: int, vmax: int, plotH: int): (y: real)
    ensures vmin <= v <= vmax && plotH >= 0 ==> MarginTop as real <= y <= (MarginTop + plotH) as real
    ensures vmax == vmin ==> y == MarginTop as real + plotH as real / 2.0
  {
    if vmax == vmin then MarginTop as real + plotH as real / 2.0
    else MarginTop as real + plotH as real - Scale(v - vmin, vmax - vmin, plotH)
  }

  /** The bottom of the range is drawn on the bottom edge, the top on the top edge, and a larger
      value strictly higher up. */
  lemma MapYOrder(v1: int, v2: int, vmin: int, vmax: int, plotH: int)
    requires vmin < vmax && plotH > 0 && vmin <= v1 < v2 <= vmax
    ensures MapY(vmin, vmin, vmax, plotH) == (MarginTop + plotH) as real
    ensures MapY(vmax, vmin, vmax, plotH) == MarginTop as real
    ensures MapY(v2, vmin, vmax, plotH) < MapY(v1, vmin, vmax, plotH)
  {
    ScaleEnds(vmax - vmin, plotH);
    ScaleStep(v1 - vmin, v2 - vmin, vmax - vmin, plotH);
  }

  /** Python's `int(x)` on a float: truncation toward zero. */
  function PyInt(x: real): (n: int)
    ensures x >= 0.0 ==> n as real <= x < n as real + 1.0
    ensures x < 0.0 ==> n as real - 1.0 < x <= n as real
  {
    if x >= 0.0 then x.Floor else -((-x).Floor)
  }

  /** Truncation keeps a non-negative value between the same integer bounds, and keeps order. */
  lemma PyIntBetween(x: real, x': real, lo: int, hi: int)
    requires 0 <= lo && lo as real <= x <= hi as real && x <= x'
    ensures lo <= PyInt(x) <= hi
    ensures PyInt(x) <= PyInt(x')
  {
  }

  // ---------------------------------------------------------------- points and series

  datatype Point = Point(x: int, y: int)

  /** One entry of a line's point list, `f"{int(tx(dt))},{int(map_y(v or 0, vmin, vmax, plot_h))}"`
      for one bucket, as a pair of numbers: the entries that `points_clone`, `points_uniq` and
      `points_dl` join with spaces. */
  function PointOf(b: Bucket, m: Metric, axis: seq<Date>, vmin: int, vmax: int, plotH: int): Point
    requires b.period in axis
  {
    Point(PyInt(AxisX(axis, b.period)), PyInt(MapY(BucketValue(b, m), vmin, vmax, plotH)))
  }

  predicate OnAxis(bs: seq<Bucket>, axis: seq<Date>) {
    forall j :: 0 <= j < |bs| ==> bs[j].period in axis
  }

  /** The points of one line, one per bucket, in bucket order. */
  function PointsOf(bs: seq<Bucket>, m: Metric, axis: seq<Date>, vmin: int, vmax: int, plotH: int): (ps: seq<Point>)
    requires OnAxis(bs, axis)
    ensures |ps| == |bs|
    ensures forall i :: 0 <= i < |bs| ==> ps[i] == PointOf(bs[i], m, axis, vmin, vmax, plotH)
  {
    seq(|bs|, i requires 0 <= i < |bs| => PointOf(bs[i], m, axis, vmin, vmax, plotH))
  }

  predicate InPlot(p: Point, plotH: int) {
    MarginLeft <= p.x <= MarginLeft + PlotW && MarginTop <= p.y <= MarginTop + plotH
  }

  predicate PointsInside(ps: seq<Point>, plotH: int) {
    forall j :: 0 <= j < |ps| ==> InPlot(ps[j], plotH)
  }

  predicate LeftToRight(ps: seq<Point>) {
    forall i, j :: 0 <= i < j < |ps| ==> ps[i].x <= ps[j].x
  }

  /** Every value in the shared range puts its point inside the plot area. */
  lemma PointsInPlot(bs: seq<Bucket>, m: Metric, axis: seq<Date>, vmin: int, vmax: int, plotH: int)
    requires OnAxis(bs, axis) && plotH >= 0
    requires forall i :: 0 <= i < |bs| ==> vmin <= BucketValue(bs[i], m) <= vmax
    ensures PointsInside(PointsOf(bs, m, axis, vmin, vmax, plotH), plotH)
  {
    var ps := PointsOf(bs, m, axis, vmin, vmax, plotH);
    forall i | 0 <= i < |ps| ensures InPlot(ps[i], plotH) {
      var b := bs[i];
      var x, y := AxisX(axis, b.period), MapY(BucketValue(b, m), vmin, vmax, plotH);
      PyIntBetween(x, x, MarginLeft, MarginLeft + PlotW);
      PyIntBetween(y, y, MarginTop, MarginTop + plotH);
    }
  }

  /** Every value of every bucket lies in `[vmin, vmax]`. */
  predicate ValuesWithin(bs: seq<Bucket>, vmin: int, vmax: int) {
    forall j, m :: 0 <= j < |bs| ==> vmin <= BucketValue(bs[j], m) <= vmax
  }

  predicate PeriodsAscending(bs: seq<Bucket>) {
    forall i, j :: 0 <= i < j < |bs| ==> AtOrBefore(bs[i].period, bs[j].period)
  }

  /** Points of buckets in period order run from left to right. */
  lemma PointsLeftToRight(bs: seq<Bucket>, m: Metric, axis: seq<Date>, vmin: int, vmax: int, plotH: int)
    requires OnAxis(bs, axis) && StrictlyAscending(axis) && PeriodsAscending(bs)
    ensures LeftToRight(PointsOf(bs, m, axis, vmin, vmax, plotH))
  {
    var ps := PointsOf(bs, m, axis, vmin, vmax, plotH);
    forall i, j | 0 <= i < j < |ps| ensures ps[i].x <= ps[j].x {
      var a, b := bs[i].period, bs[j].period;
      if Before(a, b) {
        if |axis| > 1 {
          AxisOrder(axis, a, b);
        }
        PyIntBetween(AxisX(axis, a), AxisX(axis, b), MarginLeft, MarginLeft + PlotW);
      }
    }
  }

  /** `sorted(buckets, key=lambda x: x[0])`: a stable insertion sort on the period. */
  function SortByPeriod(bs: seq<Bucket>): (r: seq<Bucket>)
    ensures PeriodsAscending(r)
    ensures multiset(r) == multiset(bs) && |r| == |bs|
  {
    if bs == [] then []
    else
      var t := SortByPeriod(bs[1..]);
      assert bs == [bs[0]] + bs[1..];
      InsertByPeriod(bs[0], t)
  }

  function InsertByPeriod(b: Bucket, s: seq<Bucket>): (r: seq<Bucket>)
    requires PeriodsAscending(s)
    ensures PeriodsAscending(r)
    ensures multiset(r) == multiset(s) + multiset{b}
  {
    if s == [] || AtOrBefore(b.period, s[0].period) then
      PrependPeriod(b, s);
      [b] + s
    else
      var t := InsertByPeriod(b, s[1..]);
      InsertPeriodAfterHead(b, s, t);
      [s[0]] + t
  }

  lemma PrependPeriod(b: Bucket, t: seq<Bucket>)
    requires PeriodsAscending(t) && (t == [] || AtOrBefore(b.period, t[0].period))
    ensures PeriodsAscending([b] + t)
  {
    var r := [b] + t;
    forall i, j | 0 <= i < j < |r| ensures AtOrBefore(r[i].period, r[j].period) {
      if i == 0 {
        assert AtOrBefore(t[0].period, t[j - 1].period) || j == 1;
      }
    }
  }

  lemma InsertPeriodAfterHead(b: Bucket, s: seq<Bucket>, t: seq<Bucket>)
    requires s != [] && PeriodsAscending(s) && !AtOrBefore(b.period, s[0].period)
    requires PeriodsAscending(t) && multiset(t) == multiset(s[1..]) + multiset{b}
    ensures PeriodsAscending([s[0]] + t)
    ensures multiset([s[0]] + t) == multiset(s) + multiset{b}
  {
    assert s == [s[0]] + s[1..];
    var r := [s[0]] + t;
    forall j | 0 <= j < |t| ensures AtOrBefore(s[0].period, t[j].period) {
      assert t[j] in multiset(t);
      if t[j] != b {
        assert t[j] in s[1..];
        var k :| 0 <= k < |s[1..]| && s[1..][k] == t[j];
        assert s[k + 1] == t[j];
      }
    }
    forall i, j | 0 <= i < j < |r| ensures AtOrBefore(r[i].period, r[j].period) {
      if i > 0 {
        assert r[i] == t[i - 1] && r[j] == t[j - 1];
      }
    }
  }

  /** Re-sorting buckets that are already in period order, as the aggregator emits them, changes nothing. */
  lemma {:induction false} SortByPeriodKeepsSorted(bs: seq<Bucket>)
    requires PeriodsAscending(bs)
    ensures SortByPeriod(bs) == bs
  {
    if bs != [] {
      var tail := bs[1..];
      assert PeriodsAscending(tail) by {
        forall i, j | 0 <= i < j < |tail| ensures AtOrBefore(tail[i].period, tail[j].period) {
          assert tail[i] == bs[i + 1] && tail[j] == bs[j + 1];
        }
      }
      SortByPeriodKeepsSorted(tail);
      assert bs == [bs[0]] + tail;
      if tail != [] {
        assert AtOrBefore(bs[0].period, bs[1].period);
      }
    }
  }

  /** What a line's legend says: whose line it is, what it counts, and its latest value. */
  datatype Legend = Legend(name: string, metric: Metric, latest: int)

  datatype Series = Series(legend: Legend, points: seq<Point>, color: string)

  function MetricWord(m: Metric): string {
    match m
    case Clones => "clones"
    case Uniques => "uniques"
    case Downloads => "downloads"
  }

  /** The legend as the chart prints it: `f"{name} — clones (latest {v})"` and its uniques and
      downloads siblings. */
  function LegendText(l: Legend): (s: string)
    ensures l.name <= s
    ensures |s| == |l.name| + 3 + |MetricWord(l.metric)| + 9 + |DecimalString(l.latest)| + 1
    ensures s[|l.name|..|l.name| + 3] == " \U{2014} "
    ensures s[|l.name| + 3..|l.name| + 3 + |MetricWord(l.metric)|] == MetricWord(l.metric)
    ensures s[|l.name| + 3 + |MetricWord(l.metric)|..|s| - 1 - |DecimalString(l.latest)|] == " (latest "
    ensures s[|s| - 1 - |DecimalString(l.latest)|..|s| - 1] == DecimalString(l.latest) && s[|s| - 1] == ')'
  {
    var (dash, open) := (" \U{2014} ", " (latest ");
    assert |dash| == 3 && |open| == 9;
    LegendParts(l.name, dash, MetricWord(l.metric), open, DecimalString(l.latest), ")");
    l.name + dash + MetricWord(l.metric) + open + DecimalString(l.latest) + ")"
  }

  /** Where each of six concatenated parts sits in the whole. */
  lemma LegendParts(a: string, b: string, c: string, d: string, e: string, f: string)
    ensures var s := a + b + c + d + e + f;
            && a <= s && s[|a|..|a| + |b|] == b && s[|a| + |b|..|a| + |b| + |c|] == c
            && s[|a| + |b| + |c|..|s| - |f| - |e|] == d && s[|s| - |f| - |e|..|s| - |f|] == e
            && s[|s| - |f|..] == f
  {
  }

  /** The lines of a repository, in order: clones, uniques, downloads. */
  const LineMetrics: seq<Metric> := [Clones, Uniques, Downloads]

  /** The colour of line `t` (0 clones, 1 uniques, 2 downloads) of the `k`-th stored repository. */
  function LineColor(k: nat, t: nat): string
    requires t < 3
  {
    if t == 0 then ColorFor(k, Clones) else if t == 1 then ColorFor(k, Uniques) else DownloadsColor
  }

  /** `pts_sorted[-1]`: the bucket of the latest period, the last one among equals. */
  function LatestBucket(bs: seq<Bucket>): (b: Bucket)
    requires bs != []
    ensures b in bs
    ensures forall i :: 0 <= i < |bs| ==> AtOrBefore(bs[i].period, b.period)
  {
    var pts := SortByPeriod(bs);
    LastIsLatest(bs, pts);
    pts[|pts| - 1]
  }

  /** The last of the buckets rearranged in period order is one of them, and no period is later. */
  lemma LastIsLatest(bs: seq<Bucket>, pts: seq<Bucket>)
    requires pts != [] && PeriodsAscending(pts) && multiset(pts) == multiset(bs)
    ensures pts[|pts| - 1] in bs
    ensures forall i :: 0 <= i < |bs| ==> AtOrBefore(bs[i].period, pts[|pts| - 1].period)
  {
    var b := pts[|pts| - 1];
    assert b in multiset(bs);
    forall i | 0 <= i < |bs| ensures AtOrBefore(bs[i].period, b.period) {
      assert bs[i] in multiset(pts);
      var j :| 0 <= j < |pts| && pts[j] == bs[i];
    }
  }

  /** The latest bucket is the last one after sorting. */
  lemma LatestIsLastSorted(bs: seq<Bucket>)
    requires bs != []
    ensures LatestBucket(bs) == SortByPeriod(bs)[|SortByPeriod(bs)| - 1]
  {
  }

  /** One line: one point per bucket, labelled with the metric's value in the last bucket. */
  function Line(name: string, pts: seq<Bucket>, m: Metric, color: string, axis: seq<Date>, vmin: int, vmax: int, plotH: int)
    : (s: Series)
    requires pts != [] && OnAxis(pts, axis)
    ensures s.legend == Legend(name, m, BucketValue(pts[|pts| - 1], m)) && |s.points| == |pts| && s.color == color
  {
    Series(Legend(name, m, BucketValue(pts[|pts| - 1], m)), PointsOf(pts, m, axis, vmin, vmax, plotH), color)
  }

  /** The three lines of one repository: clones and uniques in the repository's colours, downloads
      in the fixed downloads colour, each with one point per bucket and labelled with the value of
      the latest bucket. Their point lists are `points_clone`, `points_uniq` and `points_dl`, built
      over `pts_sorted`. */
  function RepoSeries(name: string, bs: seq<Bucket>, idx: nat, axis: seq<Date>, vmin: int, vmax: int, plotH: int)
    : (ss: seq<Series>)
    requires bs != [] && OnAxis(bs, axis)
    ensures |ss| == 3
  {
    var pts := SortByPeriod(bs);
    SortedOnAxis(bs, axis);
    [Line(name, pts, Clones, ColorFor(idx, Clones), axis, vmin, vmax, plotH),
     Line(name, pts, Uniques, ColorFor(idx, Uniques), axis, vmin, vmax, plotH),
     Line(name, pts, Downloads, DownloadsColor, axis, vmin, vmax, plotH)]
  }

  /** Line `t` of a repository is its `LineMetrics[t]` line, in the colour `LineColor(idx, t)`, with
      one point per bucket and the value of the latest bucket in its legend. */
  lemma RepoSeriesLines(name: string, bs: seq<Bucket>, idx: nat, axis: seq<Date>, vmin: int, vmax: int, plotH: int, t: nat)
    requires bs != [] && OnAxis(bs, axis) && t < 3
    ensures var s := RepoSeries(name, bs, idx, axis, vmin, vmax, plotH)[t];
            && s.legend == Legend(name, LineMetrics[t], BucketValue(LatestBucket(bs), LineMetrics[t]))
            && s.color == LineColor(idx, t)
            && |s.points| == |bs|
  {
    var pts := SortByPeriod(bs);
    SortedOnAxis(bs, axis);
    LatestIsLastSorted(bs);
    var ss := RepoSeries(name, bs, idx, axis, vmin, vmax, plotH);
    var m := LineMetrics[t];
    if t == 0 {
      assert m == Clones && ss[t] == Line(name, pts, m, ColorFor(idx, m), axis, vmin, vmax, plotH);
    } else if t == 1 {
      assert m == Uniques && ss[t] == Line(name, pts, m, ColorFor(idx, m), axis, vmin, vmax, plotH);
    } else {
      assert m == Downloads && ss[t] == Line(name, pts, m, DownloadsColor, axis, vmin, vmax, plotH);
    }
  }

  /** Sorting keeps the buckets, so it keeps them on the axis and in the value range. */
  lemma SortedOnAxis(bs: seq<Bucket>, axis: seq<Date>)
    requires OnAxis(bs, axis)
    ensures OnAxis(SortByPeriod(bs), axis) && |SortByPeriod(bs)| == |bs|
  {
    var pts := SortByPeriod(bs);
    forall j | 0 <= j < |pts| ensures pts[j].period in axis {
      assert pts[j] in multiset(bs);
      var i :| 0 <= i < |bs| && bs[i] == pts[j];
    }
  }

  lemma SortedWithin(bs: seq<Bucket>, vmin: int, vmax: int)
    requires ValuesWithin(bs, vmin, vmax)
    ensures ValuesWithin(SortByPeriod(bs), vmin, vmax)
  {
    var pts := SortByPeriod(bs);
    forall j, m | 0 <= j < |pts| ensures vmin <= BucketValue(pts[j], m) <= vmax {
      assert pts[j] in multiset(bs);
      var i :| 0 <= i < |bs| && bs[i] == pts[j];
    }
  }

  /** What the stored series of every name satisfy before they are drawn. */
  predicate Drawable(names: seq<string>, per: map<string, seq<Bucket>>, axis: seq<Date>) {
    forall i :: 0 <= i < |names| ==> names[i] in per && per[names[i]] != [] && OnAxis(per[names[i]], axis)
  }

  /** The series of a chart: three per stored repository, in the dictionary's insertion order. */
  function AllSeries(names: seq<string>, per: map<string, seq<Bucket>>, axis: seq<Date>, vmin: int, vmax: int, plotH: int)
    : (ss: seq<Series>)
    requires Drawable(names, per, axis)
    ensures |ss| == 3 * |names|
  {
    if names == [] then []
    else
      var k := |names| - 1;
      AllSeries(names[..k], per, axis, vmin, vmax, plotH) + RepoSeries(names[k], per[names[k]], k, axis, vmin, vmax, plotH)
  }

  /** Adding one more repository appends its three lines. */
  lemma AllSeriesSnoc(names: seq<string>, per: map<string, seq<Bucket>>, axis: seq<Date>,
                      vmin: int, vmax: int, plotH: int, i: nat)
    requires Drawable(names, per, axis) && i < |names|
    ensures Drawable(names[..i + 1], per, axis)
    ensures AllSeries(names[..i + 1], per, axis, vmin, vmax, plotH)
         == AllSeries(names[..i], per, axis, vmin, vmax, plotH) + RepoSeries(names[i], per[names[i]], i, axis, vmin, vmax, plotH)
  {
    var p := names[..i + 1];
    assert p[..i] == names[..i] && p[i] == names[i];
  }

  /** Every point of every line of a chart lies inside the plot area. */
  predicate AllInPlot(ss: seq<Series>, plotH: int) {
    forall i :: 0 <= i < |ss| ==> PointsInside(ss[i].points, plotH)
  }

  /** Every line of a chart runs from left to right. */
  predicate AllLeftToRight(ss: seq<Series>) {
    forall i :: 0 <= i < |ss| ==> LeftToRight(ss[i].points)
  }

  /** The three lines of one repository stay inside the plot when its values lie in the shared
      range. */
  lemma RepoSeriesInPlot(name: string, bs: seq<Bucket>, idx: nat, axis: seq<Date>, vmin: int, vmax: int, plotH: int)
    requires bs != [] && OnAxis(bs, axis) && plotH >= 0 && ValuesWithin(bs, vmin, vmax)
    ensures AllInPlot(RepoSeries(name, bs, idx, axis, vmin, vmax, plotH), plotH)
  {
    var pts := SortByPeriod(bs);
    SortedOnAxis(bs, axis);
    SortedWithin(bs, vmin, vmax);
    var ss := RepoSeries(name, bs, idx, axis, vmin, vmax, plotH);
    assert ss[0].points == PointsOf(pts, Clones, axis, vmin, vmax, plotH);
    assert ss[1].points == PointsOf(pts, Uniques, axis, vmin, vmax, plotH);
    assert ss[2].points == PointsOf(pts, Downloads, axis, vmin, vmax, plotH);
    PointsInPlot(pts, Clones, axis, vmin, vmax, plotH);
    PointsInPlot(pts, Uniques, axis, vmin, vmax, plotH);
    PointsInPlot(pts, Downloads, axis, vmin, vmax, plotH);
  }

  /** The three lines of one repository run from left to right on a chronological axis. */
  lemma RepoSeriesLeftToRight(name: string, bs: seq<Bucket>, idx: nat, axis: seq<Date>, vmin: int, vmax: int, plotH: int)
    requires bs != [] && OnAxis(bs, axis) && StrictlyAscending(axis)
    ensures AllLeftToRight(RepoSeries(name, bs, idx, axis, vmin, vmax, plotH))
  {
    var pts := SortByPeriod(bs);
    SortedOnAxis(bs, axis);
    var ss := RepoSeries(name, bs, idx, axis, vmin, vmax, plotH);
    assert ss[0].points == PointsOf(pts, Clones, axis, vmin, vmax, plotH);
    assert ss[1].points == PointsOf(pts, Uniques, axis, vmin, vmax, plotH);
    assert ss[2].points == PointsOf(pts, Downloads, axis, vmin, vmax, plotH);
    PointsLeftToRight(pts, Clones, axis, vmin, vmax, plotH);
    PointsLeftToRight(pts, Uniques, axis, vmin, vmax, plotH);
    PointsLeftToRight(pts, Downloads, axis, vmin, vmax, plotH);
  }

  lemma ConcatDrawn(a: seq<Series>, b: seq<Series>, plotH: int)
    ensures AllInPlot(a, plotH) && AllInPlot(b, plotH) ==> AllInPlot(a + b, plotH)
    ensures AllLeftToRight(a) && AllLeftToRight(b) ==> AllLeftToRight(a + b)
  {
    forall i | |a| <= i < |a + b| ensures (a + b)[i] == b[i - |a|] {
    }
  }

  /** Every value of every stored repository lies in `[vmin, vmax]`. */
  predicate AllWithin(names: seq<string>, per: map<string, seq<Bucket>>, vmin: int, vmax: int) {
    forall i :: 0 <= i < |names| && names[i] in per ==> ValuesWithin(per[names[i]], vmin, vmax)
  }

  /** Every point of every line lies inside the plot, provided every value lies in the shared range. */
  lemma {:induction false} AllSeriesInPlot(names: seq<string>, per: map<string, seq<Bucket>>, axis: seq<Date>,
                                           vmin: int, vmax: int, plotH: int)
    requires Drawable(names, per, axis) && plotH >= 0 && AllWithin(names, per, vmin, vmax)
    ensures AllInPlot(AllSeries(names, per, axis, vmin, vmax, plotH), plotH)
  {
    if names != [] {
      var k := |names| - 1;
      var init := names[..k];
      AllSeriesInPlot(init, per, axis, vmin, vmax, plotH);
      var a := AllSeries(init, per, axis, vmin, vmax, plotH);
      var b := RepoSeries(names[k], per[names[k]], k, axis, vmin, vmax, plotH);
      assert AllSeries(names, per, axis, vmin, vmax, plotH) == a + b;
      RepoSeriesInPlot(names[k], per[names[k]], k, axis, vmin, vmax, plotH);
      ConcatDrawn(a, b, plotH);
    }
  }

  /** Every line runs from left to right on a chronological axis. */
  lemma {:induction false} AllSeriesLeftToRight(names: seq<string>, per: map<string, seq<Bucket>>, axis: seq<Date>,
                                                vmin: int, vmax: int, plotH: int)
    requires Drawable(names, per, axis) && StrictlyAscending(axis)
    ensures AllLeftToRight(AllSeries(names, per, axis, vmin, vmax, plotH))
  {
    if names != [] {
      var k := |names| - 1;
      var init := names[..k];
      AllSeriesLeftToRight(init, per, axis, vmin, vmax, plotH);
      var a := AllSeries(init, per, axis, vmin, vmax, plotH);
      var b := RepoSeries(names[k], per[names[k]], k, axis, vmin, vmax, plotH);
      assert AllSeries(names, per, axis, vmin, vmax, plotH) == a + b;
      RepoSeriesLeftToRight(names[k], per[names[k]], k, axis, vmin, vmax, plotH);
      ConcatDrawn(a, b, plotH);
    }
  }

  /** Series `i` is line `i % 3` of the `i / 3`-th stored repository, in that line's colour. */
  predicate Labelled(ss: seq<Series>, names: seq<string>) {
    && |ss| == 3 * |names|
    && forall i :: 0 <= i < |ss| ==>
         && ss[i].legend.name == names[i / 3]
         && ss[i].legend.metric == LineMetrics[i % 3]
         && ss[i].color == LineColor(i / 3, i % 3)
  }

  /** Appending the three lines of the next repository keeps the labelling. */
  lemma LabelledSnoc(a: seq<Series>, b: seq<Series>, names: seq<string>)
    requires names != [] && Labelled(a, names[..|names| - 1]) && |b| == 3
    requires forall t :: 0 <= t < 3 ==>
               && b[t].legend.name == names[|names| - 1]
               && b[t].legend.metric == LineMetrics[t]
               && b[t].color == LineColor(|names| - 1, t)
    ensures Labelled(a + b, names)
  {
    var k := |names| - 1;
    forall i | 0 <= i < |a + b|
      ensures (a + b)[i].legend.name == names[i / 3] && (a + b)[i].legend.metric == LineMetrics[i % 3]
      ensures (a + b)[i].color == LineColor(i / 3, i % 3)
    {
      if i < |a| {
        assert (a + b)[i] == a[i] && names[..k][i / 3] == names[i / 3];
      } else {
        var t := i - |a|;
        assert (a + b)[i] == b[t] && i / 3 == k && i % 3 == t;
      }
    }
  }

  /** Every series of a chart is labelled with its repository and metric, in its line's colour. */
  lemma {:induction false} AllSeriesLines(names: seq<string>, per: map<string, seq<Bucket>>, axis: seq<Date>,
                                          vmin: int, vmax: int, plotH: int)
    requires Drawable(names, per, axis)
    ensures Labelled(AllSeries(names, per, axis, vmin, vmax, plotH), names)
  {
    if names != [] {
      var k := |names| - 1;
      var init := names[..k];
      AllSeriesLines(init, per, axis, vmin, vmax, plotH);
      var a := AllSeries(init, per, axis, vmin, vmax, plotH);
      var b := RepoSeries(names[k], per[names[k]], k, axis, vmin, vmax, plotH);
      assert AllSeries(names, per, axis, vmin, vmax, plotH) == a + b;
      forall t | 0 <= t < 3
        ensures b[t].legend.name == names[k] && b[t].legend.metric == LineMetrics[t] && b[t].color == LineColor(k, t)
      {
        RepoSeriesLines(names[k], per[names[k]], k, axis, vmin, vmax, plotH, t);
      }
      LabelledSnoc(a, b, names);
    }
  }

  /** The loop that builds a chart's series list. */
  method BuildSeries(names: seq<string>, per: map<string, seq<Bucket>>, axis: seq<Date>, vmin: int, vmax: int, plotH: int)
    returns (series: seq<Series>)
    requires Drawable(names, per, axis)
    ensures series == AllSeries(names, per, axis, vmin, vmax, plotH)
  {
    series := [];
    for i := 0 to |names|
      invariant series == AllSeries(names[..i], per, axis, vmin, vmax, plotH)
    {
      var name := names[i];
      series := series + RepoSeries(name, per[name], i, axis, vmin, vmax, plotH);
      AllSeriesSnoc(names, per, axis, vmin, vmax, plotH, i);
    }
    assert names[..|names|] == names;
  }

  // ---------------------------------------------------------------- values

  /** The values one repository contributes to the range: clones, uniques, downloads of each bucket. */
  function BucketValues(bs: seq<Bucket>): (vs: seq<int>)
    ensures |vs| == 3 * |bs|
  {
    if bs == [] then []
    else
      var b := bs[|bs| - 1];
      BucketValues(bs[..|bs| - 1]) + [b.clones, b.uniques, b.downloads]
  }

  /** `monthly_vals` / `yearly_vals`: the values of every stored repository, in insertion order. */
  function AllValues(names: seq<string>, per: map<string, seq<Bucket>>): seq<int>
    requires forall n :: n in names ==> n in per
  {
    if names == [] then []
    else AllValues(names[..|names| - 1], per) + BucketValues(per[names[|names| - 1]])
  }

  /** Every value of every stored bucket is among the collected values. */
  lemma {:induction false} BucketValuesCover(bs: seq<Bucket>, b: Bucket, m: Metric)
    requires b in bs
    ensures BucketValue(b, m) in BucketValues(bs)
  {
    var k := |bs| - 1;
    if bs[k] != b {
      assert b in bs[..k] by {
        var i :| 0 <= i < |bs| && bs[i] == b;
        assert bs[..k][i] == b;
      }
      BucketValuesCover(bs[..k], b, m);
    }
  }

  lemma {:induction false} AllValuesCover(names: seq<string>, per: map<string, seq<Bucket>>, n: string, b: Bucket, m: Metric)
    requires forall x :: x in names ==> x in per
    requires n in names && b in per[n]
    ensures BucketValue(b, m) in AllValues(names, per)
  {
    var k := |names| - 1;
    if names[k] == n {
      BucketValuesCover(per[n], b, m);
    } else {
      assert n in names[..k] by {
        var i :| 0 <= i < |names| && names[i] == n;
        assert names[..k][i] == n;
      }
      AllValuesCover(names[..k], per, n, b, m);
    }
  }

  /** The nested loop that collects the values of one chart. */
  method CollectValues(names: seq<string>, per: map<string, seq<Bucket>>) returns (vals: seq<int>)
    requires forall n :: n in names ==> n in per
    ensures vals == AllValues(names, per)
  {
    vals := [];
    for i := 0 to |names|
      invariant vals == AllValues(names[..i], per)
    {
      var bs := per[names[i]];
      ghost var before := vals;
      for j := 0 to |bs|
        invariant vals == before + BucketValues(bs[..j])
      {
        var b := bs[j];
        vals := vals + [b.clones, b.uniques, b.downloads];
        assert bs[..j + 1][..j] == bs[..j];
      }
      assert bs[..|bs|] == bs;
      assert names[..i + 1][..i] == names[..i];
    }
    assert names[..|names|] == names;
  }

  // ---------------------------------------------------------------- collecting the histories

  /** The name a repository is stored under: `r.get("name") or ""`. */
  function NameOf(r: Repo): string {
    OrEmpty(r.name)
  }

  /** The names of the chosen repositories that have stored history, in order, repeats included. */
  function NamesWithHistory(chart: seq<Repo>, readHistory: string -> seq<Snapshot>): seq<string> {
    if chart == [] then []
    else
      var r := chart[|chart| - 1];
      NamesWithHistory(chart[..|chart| - 1], readHistory) + (if readHistory(NameOf(r)) != [] then [NameOf(r)] else [])
  }

  /** The keys of `per_repo_monthly` in insertion order. */
  function StoredNames(chart: seq<Repo>, readHistory: string -> seq<Snapshot>): seq<string> {
    Dedupe(NamesWithHistory(chart, readHistory))
  }

  /** A non-empty history rolls up into at least one bucket. */
  lemma AggregateNotEmpty(hist: seq<Snapshot>, g: Granularity, out: seq<Bucket>)
    requires IsAggregate(hist, g, out) && hist != []
    ensures out != []
  {
    assert PeriodOf(g, hist[0].date) in Periods(out);
  }

  /** `per` holds a non-empty bucket list for exactly the names in `names`. */
  ghost predicate Filled(per: map<string, seq<Bucket>>, names: seq<string>) {
    && (forall n :: n in per <==> n in names)
    && (forall n :: n in per ==> per[n] != [])
  }

  /** Every stored bucket list is the roll-up of that repository's stored history. */
  ghost predicate Stored(g: Granularity, readHistory: string -> seq<Snapshot>, per: map<string, seq<Bucket>>,
                         names: seq<string>) {
    Filled(per, names) && forall n :: n in per ==> IsAggregate(readHistory(n), g, per[n])
  }

  /** Every period of every stored bucket is among the gathered keys. */
  predicate KeysCover(per: map<string, seq<Bucket>>, keys: seq<Date>) {
    forall n, b :: n in per && b in per[n] ==> b.period in keys
  }

  /** Every gathered key is the period of some stored bucket. */
  predicate KeysStored(per: map<string, seq<Bucket>>, keys: seq<Date>) {
    forall k :: k in keys ==> exists n :: n in per && k in Periods(per[n])
  }

  /** Storing one more repository's buckets and gathering their periods keeps every key stored,
      also when the repository was stored before: its history rolls up to the same periods. */
  lemma StoreKeysStep(g: Granularity, readHistory: string -> seq<Snapshot>, per: map<string, seq<Bucket>>,
                      names: seq<string>, keys: seq<Date>, name: string, out: seq<Bucket>)
    requires Stored(g, readHistory, per, names) && KeysStored(per, keys)
    requires IsAggregate(readHistory(name), g, out)
    ensures KeysStored(per[name := out], keys + Periods(out))
  {
    var per' := per[name := out];
    forall k | k in keys + Periods(out) ensures exists n :: n in per' && k in Periods(per'[n]) {
      if k in keys {
        var n :| n in per && k in Periods(per[n]);
        if n == name {
          AggregatePeriodsAgree(readHistory(name), g, per[name], out);
        } else {
          assert n in per' && per'[n] == per[n];
        }
      }
      if k in Periods(out) {
        assert name in per' && per'[name] == out;
      }
    }
  }

  /** Storing one more repository's buckets keeps both facts. */
  lemma StoreStep(g: Granularity, readHistory: string -> seq<Snapshot>, per: map<string, seq<Bucket>>,
                  names: seq<string>, keys: seq<Date>, name: string, out: seq<Bucket>)
    requires Stored(g, readHistory, per, names) && KeysCover(per, keys)
    requires out != [] && IsAggregate(readHistory(name), g, out)
    ensures Stored(g, readHistory, per[name := out], if name in per then names else names + [name])
    ensures KeysCover(per[name := out], keys + Periods(out))
  {
    var per' := per[name := out];
    forall n, b: Bucket | n in per' && b in per'[n] ensures b.period in keys + Periods(out) {
      if n == name {
        var j :| 0 <= j < |out| && out[j] == b;
        assert Periods(out)[j] == b.period;
      }
    }
  }

  /** One more chosen repository adds its name to the stored names when it has history and is not
      stored yet. */
  lemma StoredNamesStep(chart: seq<Repo>, i: int, readHistory: string -> seq<Snapshot>)
    requires 0 <= i < |chart|
    ensures var (names, r) := (StoredNames(chart[..i], readHistory), chart[i]);
            StoredNames(chart[..i + 1], readHistory)
            == if readHistory(NameOf(r)) == [] || NameOf(r) in names then names else names + [NameOf(r)]
  {
    var all, done, r := chart[..i + 1], chart[..i], chart[i];
    assert all[..|all| - 1] == done;
    var hs := NamesWithHistory(done, readHistory);
    var names := StoredNames(done, readHistory);
    assert NameOf(r) in names <==> NameOf(r) in hs by {
      if NameOf(r) in hs {
        var j :| 0 <= j < |hs| && hs[j] == NameOf(r);
      }
      if NameOf(r) in names {
        var j :| 0 <= j < |names| && names[j] == NameOf(r);
      }
    }
    if readHistory(NameOf(r)) != [] {
      var hs' := hs + [NameOf(r)];
      assert NamesWithHistory(all, readHistory) == hs';
      assert hs'[..|hs'| - 1] == hs;
    } else {
      assert NamesWithHistory(all, readHistory) == hs + [];
      assert hs + [] == hs;
    }
  }

  /** The first loop of `generate_history_svg`: read, roll up and store the history of every chosen
      repository that has one, and gather every period key. */
  method CollectHistories(chart: seq<Repo>, readHistory: string -> seq<Snapshot>)
    returns (monthly: map<string, seq<Bucket>>, yearly: map<string, seq<Bucket>>,
             names: seq<string>, monthKeys: seq<Date>, yearKeys: seq<Date>)
    ensures names == StoredNames(chart, readHistory)
    ensures Stored(Monthly, readHistory, monthly, names) && KeysCover(monthly, monthKeys)
    ensures Stored(Yearly, readHistory, yearly, names) && KeysCover(yearly, yearKeys)
    ensures KeysStored(monthly, monthKeys) && KeysStored(yearly, yearKeys)
    ensures monthKeys != [] || yearKeys != [] ==> names != []
  {
    monthly, yearly, names, monthKeys, yearKeys := map[], map[], [], [], [];
    for i := 0 to |chart|
      invariant names == StoredNames(chart[..i], readHistory)
      invariant Stored(Monthly, readHistory, monthly, names) && KeysCover(monthly, monthKeys)
      invariant Stored(Yearly, readHistory, yearly, names) && KeysCover(yearly, yearKeys)
      invariant KeysStored(monthly, monthKeys) && KeysStored(yearly, yearKeys)
      invariant monthKeys != [] || yearKeys != [] ==> names != []
    {
      var name := NameOf(chart[i]);
      var hist := readHistory(name);
      StoredNamesStep(chart, i, readHistory);
      if hist == [] {
        continue;
      }
      var m := Aggregate(hist, Monthly);
      var y := Aggregate(hist, Yearly);
      AggregateNotEmpty(hist, Monthly, m);
      AggregateNotEmpty(hist, Yearly, y);
      StoreStep(Monthly, readHistory, monthly, names, monthKeys, name, m);
      StoreStep(Yearly, readHistory, yearly, names, yearKeys, name, y);
      StoreKeysStep(Monthly, readHistory, monthly, names, monthKeys, name, m);
      StoreKeysStep(Yearly, readHistory, yearly, names, yearKeys, name, y);
      if m != [] {
        if name !in monthly {
          names := names + [name];
        }
        monthly := monthly[name := m];
        monthKeys := monthKeys + Periods(m);
      }
      if y != [] {
        yearly := yearly[name := y];
        yearKeys := yearKeys + Periods(y);
      }
    }
    assert chart[..|chart|] == chart;
  }

  // ---------------------------------------------------------------- the whole chart

  /** `96 + monthly_plot_h + 64 + yearly_plot_h + 40`. */
  const Height: int := 96 + MonthlyPlotH + 64 + YearlyPlotH + 40

  /** The drawing data of both charts; `monthSpan` / `yearSpan` hold the first and last axis keys
      that the start and end labels show, `None` where the source shows `"-"`. */
  datatype HistoryData = HistoryData(
    monthly: seq<Series>, yearly: seq<Series>,
    monthsCount: nat, yearsCount: nat,
    monthSpan: Option<(Date, Date)>, yearSpan: Option<(Date, Date)>)

  function Span(axis: seq<Date>): (r: Option<(Date, Date)>)
    ensures r.None? <==> axis == []
    ensures r.Some? ==> r.value == (axis[0], axis[|axis| - 1])
    ensures r.Some? && StrictlyAscending(axis) ==>
              forall i :: 0 <= i < |axis| ==> AtOrBefore(r.value.0, axis[i]) && AtOrBefore(axis[i], r.value.1)
  {
    if axis == [] then None else Some((axis[0], axis[|axis| - 1]))
  }

  /** The series of one chart satisfy what the chart promises. */
  predicate ChartDrawn(series: seq<Series>, names: seq<string>, plotH: int) {
    Labelled(series, names) && AllInPlot(series, plotH) && AllLeftToRight(series)
  }

  /** `generate_history_svg` up to rendering: the top `topN` repositories by clone count, their
      stored histories, the shared axes and ranges, and three lines per repository in each chart.
      Besides the drawing data it returns `per_repo_monthly`, `per_repo_yearly` and the gathered
      period keys, which the charts are drawn from. */
  method GenerateHistory(repoRows: seq<Repo>, readHistory: string -> seq<Snapshot>, topN: int)
    returns (h: HistoryData, monthly: map<string, seq<Bucket>>, yearly: map<string, seq<Bucket>>,
             monthKeys: seq<Date>, yearKeys: seq<Date>)
    ensures var names := StoredNames(TopByClones(repoRows, topN), readHistory);
            && Stored(Monthly, readHistory, monthly, names) && Stored(Yearly, readHistory, yearly, names)
            && KeysCover(monthly, monthKeys) && KeysStored(monthly, monthKeys)
            && KeysCover(yearly, yearKeys) && KeysStored(yearly, yearKeys)
    ensures var (names, ma, ya) := (StoredNames(TopByClones(repoRows, topN), readHistory), Axis(monthKeys), Axis(yearKeys));
            var (mr, yr) := (ValueRange(AllValues(names, monthly)), ValueRange(AllValues(names, yearly)));
            && Drawable(names, monthly, ma) && h.monthly == AllSeries(names, monthly, ma, mr.0, mr.1, MonthlyPlotH)
            && Drawable(names, yearly, ya) && h.yearly == AllSeries(names, yearly, ya, yr.0, yr.1, YearlyPlotH)
            && h.monthsCount == |ma| && h.monthSpan == Span(ma)
            && h.yearsCount == |ya| && h.yearSpan == Span(ya)
    ensures var names := StoredNames(TopByClones(repoRows, topN), readHistory);
            && ChartDrawn(h.monthly, names, MonthlyPlotH)
            && ChartDrawn(h.yearly, names, YearlyPlotH)
            && (h.monthSpan.None? <==> names == []) && (h.yearSpan.None? <==> names == [])
            && (h.monthSpan.Some? ==> Before(h.monthSpan.value.0, h.monthSpan.value.1) || h.monthsCount == 1)
            && (h.yearSpan.Some? ==> Before(h.yearSpan.value.0, h.yearSpan.value.1) || h.yearsCount == 1)
            && (h.monthsCount == 0 <==> names == []) && (h.yearsCount == 0 <==> names == [])
  {
    var chart := TopByClones(repoRows, topN);
    var names;
    monthly, yearly, names, monthKeys, yearKeys := CollectHistories(chart, readHistory);
    var monthlySeries, monthsCount, monthSpan := DrawChart(names, monthly, monthKeys, MonthlyPlotH);
    var yearlySeries, yearsCount, yearSpan := DrawChart(names, yearly, yearKeys, YearlyPlotH);
    h := HistoryData(monthlySeries, yearlySeries, monthsCount, yearsCount, monthSpan, yearSpan);
  }

  /** One chart: the axis of the gathered keys, the value range of the stored buckets, the series
      loop over the stored repositories, and the axis length and span the labels show. */
  method DrawChart(names: seq<string>, per: map<string, seq<Bucket>>, keys: seq<Date>, plotH: int)
    returns (series: seq<Series>, count: nat, span: Option<(Date, Date)>)
    requires Filled(per, names) && KeysCover(per, keys) && (keys != [] ==> names != []) && plotH >= 0
    ensures var (axis, range) := (Axis(keys), ValueRange(AllValues(names, per)));
            && Drawable(names, per, axis) && series == AllSeries(names, per, axis, range.0, range.1, plotH)
            && count == |axis| && span == Span(axis)
    ensures ChartDrawn(series, names, plotH)
    ensures (count == 0 <==> names == []) && (span.None? <==> names == [])
    ensures span.Some? ==> Before(span.value.0, span.value.1) || count == 1
  {
    var axis := Axis(keys);
    var vals := CollectValues(names, per);
    var range := ValueRange(vals);
    StoredOnAxis(names, per, keys);
    series := BuildSeries(names, per, axis, range.0, range.1, plotH);
    ValuesInRange(names, per, range);
    AllSeriesInPlot(names, per, axis, range.0, range.1, plotH);
    AllSeriesLeftToRight(names, per, axis, range.0, range.1, plotH);
    AllSeriesLines(names, per, axis, range.0, range.1, plotH);
    if names != [] {
      assert per[names[0]][0].period in keys;
    }
    count, span := |axis|, Span(axis);
  }

  /** Every stored bucket's period is on the axis built from the gathered keys. */
  lemma StoredOnAxis(names: seq<string>, per: map<string, seq<Bucket>>, keys: seq<Date>)
    requires Filled(per, names) && KeysCover(per, keys)
    ensures Drawable(names, per, Axis(keys))
  {
    forall i, j | 0 <= i < |names| && 0 <= j < |per[names[i]]| ensures per[names[i]][j].period in Axis(keys) {
      assert per[names[i]][j] in per[names[i]];
    }
  }

  /** Every stored value lies in the range computed from all of them. */
  lemma ValuesInRange(names: seq<string>, per: map<string, seq<Bucket>>, range: (int, int))
    requires forall n :: n in names ==> n in per
    requires range == ValueRange(AllValues(names, per))
    ensures AllWithin(names, per, range.0, range.1)
  {
    forall i, j, m | 0 <= i < |names| && 0 <= j < |per[names[i]]|
      ensures range.0 <= BucketValue(per[names[i]][j], m) <= range.1
    {
      AllValuesCover(names, per, names[i], per[names[i]][j], m);
    }
  }
}
