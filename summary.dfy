/**
 * The layout half of `generate_summary_svg_jinja`: header totals, the top-N chart rows, their
 * count labels, the closed-form column and canvas sizes, and the per-metric bar scaling.  The
 * float constant `CHAR_PX = 7.5` is the exact rational 15/2, so `int(n * 7.5 + k)` for `n >= 0`
 * is `(15 * n) / 2 + k`; the lemmas `NameColumnWidthIsFloor` and `CountTextWidthIsFloor` tie each
 * integer formula to its real-valued original.
 */
module SummaryCard {
  import opened Wrappers
  import opened Text
  import opened Repos

  const Padding := 18
  const BarHeight := 18
  const BarGap := 8
  /** `int(12 + 3*bar_h + 2*bar_gap)`: a repository's label and its three bars. */
  const BlockHeight := 12 + 3 * BarHeight + 2 * BarGap

  /** The per-row quantities the header sums. */
  datatype Field = Clones | Uniques | Combined | Downloads14d | DownloadsTotal

  function FieldValue(r: Repo, f: Field): int {
    match f
    case Clones => OrZero(r.clones)
    case Uniques => OrZero(r.uniques)
    case Combined => OrZero(r.clones) + OrZero(r.uniques)
    case Downloads14d => OrZero(r.downloads14d)
    case DownloadsTotal => OrZero(r.downloadsTotal)
  }

  /** `sum((r.get(field) or 0) for r in repo_rows)`. */
  function SumField(rows: seq<Repo>, f: Field): int {
    if rows == [] then 0 else FieldValue(rows[0], f) + SumField(rows[1..], f)
  }

  /** The header's combined total is the clone total plus the unique-cloner total. */
  lemma {:induction false} CombinedTotalIsSum(rows: seq<Repo>)
    ensures SumField(rows, Combined) == SumField(rows, Clones) + SumField(rows, Uniques)
  {
    if rows != [] {
      CombinedTotalIsSum(rows[1..]);
    }
  }

  /** The combined label: `"N/A"` only when both counts are missing, else the sum with a missing count as 0. */
  function CombinedLabel(c: Option<int>, u: Option<int>): (s: string)
    ensures s == "N/A" <==> c.None? && u.None?
    ensures !(c.None? && u.None?) ==> s == CountLabel(Some(OrZero(c) + OrZero(u)))
  {
    if c.None? && u.None? then "N/A" else CountLabel(Some(OrZero(c) + OrZero(u)))
  }

  function RMin(a: real, b: real): real { if a <= b then a else b }
  function RMax(a: real, b: real): real { if a >= b then a else b }

  /** `name_col_width = int(max(120, min(max_label_chars * 7.5 + 10, 420)))`. */
  function NameColumnWidth(chars: nat): (w: int)
    ensures 120 <= w <= 420
  {
    Max(120, Min((15 * chars) / 2 + 10, 420))
  }

  /** `count_text_w = int(max(64, max_count_chars * 7.5 + 12))`. */
  function CountTextWidth(chars: nat): (w: int)
    ensures w >= 64
  {
    Max(64, (15 * chars) / 2 + 12)
  }

  lemma HalfStep(chars: nat)
    ensures chars as real * 7.5 == ((15 * chars) / 2) as real + ((15 * chars) % 2) as real / 2.0
  {
    assert 15 * chars == 2 * ((15 * chars) / 2) + (15 * chars) % 2;
  }

  /** The integer name-column formula is the float formula of the source, truncated. */
  lemma NameColumnWidthIsFloor(chars: nat)
    ensures NameColumnWidth(chars) == RMax(120.0, RMin(chars as real * 7.5 + 10.0, 420.0)).Floor
  {
    HalfStep(chars);
  }

  /** The integer count-column formula is the float formula of the source, truncated. */
  lemma CountTextWidthIsFloor(chars: nat)
    ensures CountTextWidth(chars) == RMax(64.0, chars as real * 7.5 + 12.0).Floor
  {
    HalfStep(chars);
  }

  /** `width = max(820, padding*3 + name_col_width + 220 + count_text_w + 18)`. */
  function CanvasWidth(nameW: int, countW: int): (w: int)
    ensures w >= 820 && w >= nameW + countW + 292
  {
    Max(820, 3 * Padding + nameW + 220 + countW + 18)
  }

  /** `bar_x = padding + name_col_width + 12`. */
  function BarX(nameW: int): int {
    Padding + nameW + 12
  }

  /** `bar_max_width = int(width - bar_x - padding - count_text_w - 18)`. */
  function BarMaxWidth(nameW: int, countW: int): (w: int)
    ensures w == CanvasWidth(nameW, countW) - nameW - countW - 66
    ensures w >= 226
  {
    CanvasWidth(nameW, countW) - BarX(nameW) - Padding - countW - 18
  }

  /** The bars start right of the name column and end left of the count text, inside the canvas. */
  lemma BarsFitCanvas(nameW: int, countW: int)
    ensures Padding + nameW < BarX(nameW)
    ensures BarX(nameW) + BarMaxWidth(nameW, countW) + countW + Padding + 18 == CanvasWidth(nameW, countW)
  {
  }

  /** `max(...) or 1`: a maximum of 0 becomes 1, any other maximum is kept. */
  function ScaleMax(m: int): int {
    if m == 0 then 1 else m
  }

  /** Python's `int(a / b)`: the quotient truncated toward zero. */
  function TruncDiv(a: int, b: int): int
    requires b != 0
  {
    var q := (if a < 0 then -a else a) / (if b < 0 then -b else b);
    if (a < 0) != (b < 0) then -q else q
  }

  /** `int((v / mx) * bar_max_width) if mx else 0`. */
  function BarWidth(v: int, mx: int, w: int): int {
    if mx != 0 then TruncDiv(v * w, mx) else 0
  }

  lemma MulSign(b: int, x: int)
    requires b > 0 && b * x <= 0
    ensures x <= 0
  {
  }

  lemma DivAtMost(a: int, b: int, w: int)
    requires 0 <= a <= b * w && b > 0
    ensures a / b <= w
  {
    var q := a / b;
    assert a == b * q + a % b;
    assert b * (q - w) == b * q - b * w;
    MulSign(b, q - w);
  }

  lemma MulMono(v: int, mx: int, w: int)
    requires 0 <= v <= mx && w >= 0
    ensures 0 <= v * w <= mx * w
  {
    assert mx * w - v * w == (mx - v) * w;
  }

  lemma TruncDivNonNegative(a: int, b: int)
    requires a >= 0 && b > 0
    ensures TruncDiv(a, b) == a / b
  {
  }

  lemma DivNonNegative(a: int, b: int)
    requires a >= 0 && b > 0
    ensures a / b >= 0
  {
    var q := a / b;
    assert a == b * q + a % b && a % b < b;
    assert b * (q + 1) == b * q + b;
    MulSign(b, -(q + 1));
  }

  /** A bar is never wider than the longest bar: for `0 <= v <= mx` its width lies in `[0, w]`,
      a zero count draws nothing, and the largest count fills the full width. */
  lemma BarWidthBounds(v: int, mx: int, w: int)
    requires 0 <= v <= mx && mx != 0 && w >= 0
    ensures 0 <= BarWidth(v, mx, w) <= w
    ensures v == 0 ==> BarWidth(v, mx, w) == 0
    ensures v == mx ==> BarWidth(v, mx, w) == w
  {
    var p := v * w;
    MulMono(v, mx, w);
    TruncDivNonNegative(p, mx);
    DivNonNegative(p, mx);
    DivAtMost(p, mx, w);
    if v == 0 {
      assert p == 0;
    }
    if v == mx {
      MulDivCancel(mx, w);
    }
  }

  lemma MulNegative(b: int, x: int)
    requires b > 0 && b * x < 0
    ensures x < 0
  {
  }

  /** `(b * w) / b == w` for positive `b`. */
  lemma MulDivCancel(b: int, w: int)
    requires b > 0
    ensures (b * w) / b == w
  {
    var p := b * w;
    var q, r := p / b, p % b;
    assert p == b * q + r && 0 <= r < b;
    assert b * (q - w) == -r;
    MulSign(b, q - w);
    assert b * (w - q - 1) == r - b;
    MulNegative(b, w - q - 1);
  }

  lemma DivMono(a1: int, a2: int, b: int)
    requires 0 <= a1 <= a2 && b > 0
    ensures a1 / b <= a2 / b
  {
    var q1, q2 := a1 / b, a2 / b;
    assert a1 == b * q1 + a1 % b && a2 == b * q2 + a2 % b;
    assert b * (q1 - q2 - 1) == b * q1 - b * q2 - b;
    MulSign(b, q1 - q2 - 1);
  }

  /** Larger counts never get shorter bars. */
  lemma BarWidthMonotone(v1: int, v2: int, mx: int, w: int)
    requires 0 <= v1 <= v2 && mx > 0 && w >= 0
    ensures BarWidth(v1, mx, w) <= BarWidth(v2, mx, w)
  {
    MulMono(v1, v2, w);
    TruncDivNonNegative(v1 * w, mx);
    TruncDivNonNegative(v2 * w, mx);
    DivMono(v1 * w, v2 * w, mx);
  }

  function FieldValues(rows: seq<Repo>, f: Field): (xs: seq<int>)
    ensures |xs| == |rows| && forall i :: 0 <= i < |rows| ==> xs[i] == FieldValue(rows[i], f)
  {
    seq(|rows|, i requires 0 <= i < |rows| => FieldValue(rows[i], f))
  }

  /** The scale of one metric over the chart rows: `max((value or 0) for r in chart_rows) or 1`. */
  function MetricScale(chart: seq<Repo>, f: Field): (m: int)
    requires chart != []
    ensures m != 0
    ensures forall i :: 0 <= i < |chart| ==> FieldValue(chart[i], f) <= m
    ensures (exists i :: 0 <= i < |chart| && FieldValue(chart[i], f) == m)
            || (m == 1 && (forall i :: 0 <= i < |chart| ==> FieldValue(chart[i], f) <= 0)
                && exists i :: 0 <= i < |chart| && FieldValue(chart[i], f) == 0)
  {
    var xs := FieldValues(chart, f);
    var mx := MaxOf(xs);
    assert forall i :: 0 <= i < |chart| ==> xs[i] == FieldValue(chart[i], f);
    ScaleMax(mx)
  }

  datatype Totals = Totals(repos: nat, clones: int, uniques: int, combined: int, downloads14d: int, downloadsTotal: int)

  datatype ChartRow = ChartRow(name: string, cloneLabel: string, uniqLabel: string, combLabel: string,
                               barClone: int, barUniq: int, barComb: int)

  datatype Layout = Layout(totals: Totals, width: int, height: int, barX: int, barMaxWidth: int,
                           nameWidth: int, countWidth: int, rows: seq<ChartRow>)

  function NameOf(r: Repo): string {
    OrEmpty(r.name)
  }

  /** The count label of one chart row for one metric: `cstr`, `ustr` or `comb_label`. */
  function LabelOf(r: Repo, f: Field): string {
    match f
    case Clones => CountLabel(r.clones)
    case Uniques => CountLabel(r.uniques)
    case _ => CombinedLabel(r.clones, r.uniques)
  }

  /** The labels of one metric for a list of chart rows, in row order. */
  function LabelsOf(chart: seq<Repo>, f: Field): (ls: seq<string>)
    ensures |ls| == |chart|
    ensures forall i :: 0 <= i < |chart| ==> ls[i] == LabelOf(chart[i], f)
  {
    if chart == [] then [] else LabelsOf(chart[..|chart| - 1], f) + [LabelOf(chart[|chart| - 1], f)]
  }

  /** All count labels of the chart: the clone labels, then the unique labels, then the combined ones. */
  function CountLabels(chart: seq<Repo>): (ls: seq<string>)
    ensures |ls| == 3 * |chart|
  {
    LabelsOf(chart, Clones) + LabelsOf(chart, Uniques) + LabelsOf(chart, Combined)
  }

  /** The row the template draws for chart row `r`. */
  function RowFor(r: Repo, barMax: int, mc: int, mu: int, mb: int): ChartRow {
    ChartRow(NameOf(r), CountLabel(r.clones), CountLabel(r.uniques), CombinedLabel(r.clones, r.uniques),
             BarWidth(FieldValue(r, Clones), mc, barMax), BarWidth(FieldValue(r, Uniques), mu, barMax),
             BarWidth(FieldValue(r, Combined), mb, barMax))
  }

  /** The names of the chart rows: `[r.get("name") or "" for r in chart_rows]`. */
  function Names(chart: seq<Repo>): (ns: seq<string>)
    ensures |ns| == |chart|
  {
    seq(|chart|, i requires 0 <= i < |chart| => NameOf(chart[i]))
  }

  /** The sizes and rows the template receives when the chart is not empty. */
  ghost predicate IsLayout(repoRows: seq<Repo>, chart: seq<Repo>, l: Layout)
    requires chart != []
  {
    && l.totals == Totals(|repoRows|, SumField(repoRows, Clones), SumField(repoRows, Uniques),
                          SumField(repoRows, Combined), SumField(repoRows, Downloads14d), SumField(repoRows, DownloadsTotal))
    && l.nameWidth == NameColumnWidth(MaxLength(Names(chart), 0))
    && l.countWidth == CountTextWidth(MaxLength(CountLabels(chart), 1))
    && l.width == CanvasWidth(l.nameWidth, l.countWidth)
    && l.barX == BarX(l.nameWidth)
    && l.barMaxWidth == BarMaxWidth(l.nameWidth, l.countWidth)
    && l.height == 120 + |chart| * BlockHeight
    && l.rows == RowsFor(chart, l.barMaxWidth, MetricScale(chart, Clones), MetricScale(chart, Uniques),
                         MetricScale(chart, Combined))
  }

  /** The summary card's layout.  An empty chart fails, as `max()` of an empty sequence raises in the source. */
  method LayoutSummary(repoRows: seq<Repo>, topN: int) returns (res: Result<Layout, string>)
    ensures res.Failure? <==> TopByClones(repoRows, topN) == []
    ensures res.Success? ==> IsLayout(repoRows, TopByClones(repoRows, topN), res.value)
  {
    var totals := Totals(|repoRows|, SumField(repoRows, Clones), SumField(repoRows, Uniques),
                         SumField(repoRows, Combined), SumField(repoRows, Downloads14d), SumField(repoRows, DownloadsTotal));
    var chart := TopByClones(repoRows, topN);
    if chart == [] {
      return Failure("max() arg is an empty sequence");
    }
    var nameW := NameColumnWidth(MaxLength(Names(chart), 0));
    var labels := BuildLabels(chart);
    var countW := CountTextWidth(MaxLength(labels, 1));
    var width := CanvasWidth(nameW, countW);
    var barX := BarX(nameW);
    var barMax := width - barX - Padding - countW - 18;
    var height := 120 + |chart| * BlockHeight;
    var rows := BuildRows(chart, barMax);
    return Success(Layout(totals, width, height, barX, barMax, nameW, countW, rows));
  }

  /** The label loop: the clone, unique and combined labels of every chart row, concatenated. */
  method BuildLabels(chart: seq<Repo>) returns (labels: seq<string>)
    ensures labels == CountLabels(chart)
  {
    var cloneLabels, uniqLabels, combLabels := [], [], [];
    for i := 0 to |chart|
      invariant cloneLabels == LabelsOf(chart[..i], Clones)
      invariant uniqLabels == LabelsOf(chart[..i], Uniques)
      invariant combLabels == LabelsOf(chart[..i], Combined)
    {
      LabelsSnoc(chart, i);
      cloneLabels := cloneLabels + [LabelOf(chart[i], Clones)];
      uniqLabels := uniqLabels + [LabelOf(chart[i], Uniques)];
      combLabels := combLabels + [LabelOf(chart[i], Combined)];
    }
    assert chart[..|chart|] == chart;
    labels := cloneLabels + uniqLabels + combLabels;
  }

  lemma LabelsSnoc(chart: seq<Repo>, i: int)
    requires 0 <= i < |chart|
    ensures forall f :: LabelsOf(chart[..i + 1], f) == LabelsOf(chart[..i], f) + [LabelOf(chart[i], f)]
  {
    assert chart[..i + 1][..i] == chart[..i];
  }

  /** The drawn rows of a list of chart rows, all scaled with the same maxima. */
  function RowsFor(chart: seq<Repo>, barMax: int, mc: int, mu: int, mb: int): (rows: seq<ChartRow>)
    ensures |rows| == |chart|
  {
    if chart == [] then [] else RowsFor(chart[..|chart| - 1], barMax, mc, mu, mb) + [RowFor(chart[|chart| - 1], barMax, mc, mu, mb)]
  }

  lemma {:induction false} RowsForAt(chart: seq<Repo>, barMax: int, mc: int, mu: int, mb: int, i: int)
    requires 0 <= i < |chart|
    ensures RowsFor(chart, barMax, mc, mu, mb)[i] == RowFor(chart[i], barMax, mc, mu, mb)
  {
    if i < |chart| - 1 {
      RowsForAt(chart[..|chart| - 1], barMax, mc, mu, mb, i);
    }
  }

  /** The row loop: one drawn row per chart row, each metric scaled against its own maximum. */
  method BuildRows(chart: seq<Repo>, barMax: int) returns (rows: seq<ChartRow>)
    requires chart != []
    ensures rows == RowsFor(chart, barMax, MetricScale(chart, Clones), MetricScale(chart, Uniques), MetricScale(chart, Combined))
  {
    var mc, mu, mb := MetricScale(chart, Clones), MetricScale(chart, Uniques), MetricScale(chart, Combined);
    rows := [];
    for i := 0 to |chart|
      invariant rows == RowsFor(chart[..i], barMax, mc, mu, mb)
    {
      RowsSnoc(chart, i, barMax, mc, mu, mb);
      rows := rows + [RowFor(chart[i], barMax, mc, mu, mb)];
    }
    assert chart[..|chart|] == chart;
  }

  lemma RowsSnoc(chart: seq<Repo>, i: int, barMax: int, mc: int, mu: int, mb: int)
    requires 0 <= i < |chart|
    ensures RowsFor(chart[..i + 1], barMax, mc, mu, mb) == RowsFor(chart[..i], barMax, mc, mu, mb) + [RowFor(chart[i], barMax, mc, mu, mb)]
  {
    assert chart[..i + 1][..i] == chart[..i];
  }

  /** In a laid-out card every bar of a row with non-negative counts fits the bar area and a
      missing or zero count draws no bar. */
  lemma ChartBarsFit(chart: seq<Repo>, i: int, f: Field, barMax: int)
    requires 0 <= i < |chart| && barMax >= 0
    requires forall k :: 0 <= k < |chart| ==> FieldValue(chart[k], f) >= 0
    ensures 0 <= BarWidth(FieldValue(chart[i], f), MetricScale(chart, f), barMax) <= barMax
    ensures FieldValue(chart[i], f) == 0 ==> BarWidth(FieldValue(chart[i], f), MetricScale(chart, f), barMax) == 0
  {
    var xs := FieldValues(chart, f);
    var m := MaxOf(xs);
    assert xs[i] == FieldValue(chart[i], f) && xs[i] <= m;
    if m == 0 {
      assert FieldValue(chart[i], f) == 0;
    }
    BarWidthBounds(FieldValue(chart[i], f), MetricScale(chart, f), barMax);
  }
}
