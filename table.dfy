/**
 * The layout half of `generate_table_svg_jinja`: the visible rows, the header totals, the cell
 * text of every column, a character estimate per column, its pixel width clamped to the
 * column's bounds, the table width, the column x-positions and the wrapped description lines.
 * `CHAR_PX = 7.2` is the exact rational 36/5, so `int(n * 7.2 + k)` for `n >= 0` is
 * `(36 * n) / 5 + k`; `PixelEstimateIsFloor` ties that to the real-valued formula.  The
 * dictionaries `col_char_max` and `col_px`, keyed by the (distinct) column keys, are sequences
 * parallel to `Columns`.
 */
module TableLayout {
  import opened Wrappers
  import opened Text
  import opened Repos
  import opened DescriptionWrap

  /** `(key, header, min_px, max_px, is_numeric, wrap_chars_for_text)`. */
  datatype Column = Column(key: string, header: string, minPx: int, maxPx: int, numeric: bool, wrapChars: int)

  const Columns: seq<Column> := [
    Column("name", "Repo", 140, 420, false, 30),
    Column("description", "Description", 220, 600, false, 60),
    Column("language", "Language", 80, 140, false, 20),
    Column("stargazers_count", "Stars", 56, 80, true, 0),
    Column("forks_count", "Forks", 56, 80, true, 0),
    Column("watchers_count", "Watchers", 56, 80, true, 0),
    Column("open_issues_count", "Open issues", 82, 110, true, 0),
    Column("pushed_at", "Last push", 140, 200, false, 20),
    Column("clone_count", "Clones (14d)", 90, 140, true, 0),
    Column("clone_uniques", "Unique clones (14d)", 110, 160, true, 0),
    Column("download_14d", "Downloads (14d)", 110, 160, true, 0),
    Column("download_total", "Downloads (total)", 110, 160, true, 0)
  ]

  const Padding := 18
  const HeaderHeight := 48
  const RowHeight := 26
  const Gap := 8
  const TableX := Padding
  const TableY := Padding + 12

  /** Every column's bounds are ordered and no key occurs twice. */
  lemma ColumnsWellFormed()
    ensures forall i :: 0 <= i < |Columns| ==> Columns[i].minPx <= Columns[i].maxPx
    ensures forall i, j :: 0 <= i < j < |Columns| ==> Columns[i].key != Columns[j].key
  {
  }

  /** `r.get(key)` for the integer entries of a row; `None` for any key the row does not hold. */
  function IntField(r: Repo, key: string): Option<int> {
    if key == "stargazers_count" then r.stars
    else if key == "forks_count" then r.forks
    else if key == "watchers_count" then r.watchers
    else if key == "open_issues_count" then r.openIssues
    else if key == "clone_count" then r.clones
    else if key == "clone_uniques" then r.uniques
    else if key == "download_14d" then r.downloads14d
    else if key == "download_total" then r.downloadsTotal
    else None
  }

  predicate IsCountKey(key: string) {
    key == "clone_count" || key == "clone_uniques" || key == "download_14d" || key == "download_total"
  }

  /** The push time shown: `s[:19].replace("T", " ") if s else ""`. */
  function PushedAtText(s: string): (t: string)
    ensures |t| <= 19 && 'T' !in t
    ensures |t| == if |s| < 19 then |s| else 19
    ensures forall i :: 0 <= i < |t| ==> t[i] == if s[i] == 'T' then ' ' else s[i]
  {
    if s == "" then ""
    else
      ReplaceAllChar(PyPrefix(s, 19), 'T', ' ');
      ReplaceAll(PyPrefix(s, 19), 'T', " ")
  }

  /** `str(r.get(key) or "")`: a missing value, `""` and `0` all give the empty string. */
  function GenericCell(r: Repo, key: string): (s: string)
    ensures key == "language" ==> s == OrEmpty(r.language)
    ensures key != "language" ==> (s == "" <==> IntField(r, key).None? || IntField(r, key).value == 0)
    ensures key != "language" && IntField(r, key).Some? && IntField(r, key).value != 0 ==>
              DecimalValue(s) == IntField(r, key).value && (s[0] == '-' <==> IntField(r, key).value < 0)
  {
    if key == "language" then OrEmpty(r.language)
    else
      match IntField(r, key)
      case None => ""
      case Some(v) => if v == 0 then "" else DecimalString(v)
  }

  /** `cell_text(col_key, r)`. */
  function CellText(key: string, r: Repo): (s: string)
    ensures key == "name" ==> s == OrEmpty(r.name)
    ensures key == "description" ==> s == OrEmpty(r.description)
    ensures key == "pushed_at" ==> |s| <= 19 && 'T' !in s && s == PushedAtText(OrEmpty(r.pushedAt))
    ensures IsCountKey(key) ==> (s == "N/A" <==> IntField(r, key).None?) && s == CountLabel(IntField(r, key))
    ensures key !in {"name", "description", "pushed_at"} && !IsCountKey(key) ==> s == GenericCell(r, key)
  {
    if key == "name" then OrEmpty(r.name)
    else if key == "description" then OrEmpty(r.description)
    else if key == "pushed_at" then PushedAtText(OrEmpty(r.pushedAt))
    else if IsCountKey(key) then CountLabel(IntField(r, key))
    else GenericCell(r, key)
  }

  /** A numeric column counts `0` as shown (`"0"`), the generic columns do not: `stargazers_count`
      of 0 is shown as the empty string. */
  lemma ZeroCounts(r: Repo)
    requires r.clones == Some(0) && r.stars == Some(0)
    ensures CellText("clone_count", r) == "0"
    ensures CellText("stargazers_count", r) == ""
  {
  }

  /** The texts of one column over the rows. */
  function CellTexts(rows: seq<Repo>, key: string): (ts: seq<string>)
    ensures |ts| == |rows| && forall i :: 0 <= i < |rows| ==> ts[i] == CellText(key, rows[i])
  {
    seq(|rows|, i requires 0 <= i < |rows| => CellText(key, rows[i]))
  }

  /** A text column's estimate over the column's cell texts: the header length, raised by each
      non-empty text, each counting at most `2 * wrap_chars`. */
  function TextChars(texts: seq<string>, col: Column): (m: int)
    ensures |col.header| <= m <= Max(|col.header|, 2 * col.wrapChars)
    ensures forall i :: 0 <= i < |texts| && texts[i] != "" ==> Min(|texts[i]|, 2 * col.wrapChars) <= m
    ensures m == |col.header| || (exists i :: 0 <= i < |texts| && texts[i] != "" &&
                                             m == Min(|texts[i]|, 2 * col.wrapChars))
  {
    if texts == [] then |col.header|
    else
      var p := texts[..|texts| - 1];
      var m := TextChars(p, col);
      var c := texts[|p|];
      assert forall i :: 0 <= i < |p| ==> p[i] == texts[i];
      if c == "" then m else Max(m, Min(|c|, 2 * col.wrapChars))
  }

  /** The character estimate of one column: for a numeric column the longest cell text, or the
      header length when there are no rows; for a text column `TextChars`. */
  function CharEstimate(col: Column, rows: seq<Repo>): (m: int)
    ensures col.numeric && rows != [] ==> forall i :: 0 <= i < |rows| ==> |CellText(col.key, rows[i])| <= m
    ensures col.numeric && rows != [] ==> exists i :: 0 <= i < |rows| && |CellText(col.key, rows[i])| == m
    ensures col.numeric && rows == [] ==> m == |col.header|
    ensures !col.numeric ==> |col.header| <= m <= Max(|col.header|, 2 * col.wrapChars)
  {
    var texts := CellTexts(rows, col.key);
    if col.numeric then MaxLength(texts, |col.header|) else TextChars(texts, col)
  }

  /** The inner loop of the text-column measurement, with its `continue` for empty cells. */
  method TextColumnChars(col: Column, rows: seq<Repo>) returns (maxchars: int)
    ensures maxchars == TextChars(CellTexts(rows, col.key), col)
  {
    ghost var texts := CellTexts(rows, col.key);
    maxchars := |col.header|;
    for i := 0 to |rows|
      invariant maxchars == TextChars(texts[..i], col)
    {
      assert texts[..i + 1][..i] == texts[..i];
      var c := CellText(col.key, rows[i]);
      if c == "" {
        continue;
      }
      maxchars := Max(maxchars, Min(|c|, 2 * col.wrapChars));
    }
    assert texts[..|rows|] == texts;
  }

  /** The estimates of a list of columns, in column order. */
  function Estimates(cols: seq<Column>, rows: seq<Repo>): (es: seq<int>)
    ensures |es| == |cols| && forall i :: 0 <= i < |cols| ==> es[i] == CharEstimate(cols[i], rows)
  {
    seq(|cols|, i requires 0 <= i < |cols| => CharEstimate(cols[i], rows))
  }

  /** The measuring loop over the columns: `col_char_max`. */
  method MeasureColumns(cols: seq<Column>, rows: seq<Repo>) returns (charMax: seq<int>)
    ensures charMax == Estimates(cols, rows)
  {
    charMax := [];
    for j := 0 to |cols|
      invariant |charMax| == j
      invariant forall k :: 0 <= k < j ==> charMax[k] == CharEstimate(cols[k], rows)
    {
      var col := cols[j];
      var chars;
      if col.numeric {
        chars := MaxLength(CellTexts(rows, col.key), |col.header|);
      } else {
        chars := TextColumnChars(col, rows);
      }
      ghost var before := charMax;
      charMax := charMax + [chars];
      assert forall k :: 0 <= k < j ==> charMax[k] == before[k];
    }
  }

  /** `int(chars * 7.2 + 10)` with one extra character for numeric columns, `int(chars * 7.2 + 18)`
      for text columns, clamped into `[min_px, max_px]`. */
  function PixelWidth(col: Column, chars: int): (px: int)
    ensures col.minPx <= col.maxPx ==> col.minPx <= px <= col.maxPx
    ensures col.minPx <= PixelEstimate(col, chars) <= col.maxPx ==> px == PixelEstimate(col, chars)
  {
    Max(col.minPx, Min(PixelEstimate(col, chars), col.maxPx))
  }

  function PixelEstimate(col: Column, chars: int): int {
    if col.numeric then (36 * (chars + 1)) / 5 + 10 else (36 * chars) / 5 + 18
  }

  lemma FifthStep(n: nat)
    ensures n as real * 7.2 == ((36 * n) / 5) as real + ((36 * n) % 5) as real / 5.0
  {
    assert 36 * n == 5 * ((36 * n) / 5) + (36 * n) % 5;
  }

  /** The integer estimate is the source's float formula, truncated. */
  lemma PixelEstimateIsFloor(col: Column, chars: nat)
    ensures col.numeric ==> PixelEstimate(col, chars) == ((chars + 1) as real * 7.2 + 10.0).Floor
    ensures !col.numeric ==> PixelEstimate(col, chars) == (chars as real * 7.2 + 18.0).Floor
  {
    FifthStep(chars);
    FifthStep(chars + 1);
  }

  /** The widths of a list of columns from their estimates. */
  function PixelWidths(cols: seq<Column>, chars: seq<int>): (px: seq<int>)
    requires |chars| == |cols|
    ensures |px| == |cols| && forall i :: 0 <= i < |cols| ==> px[i] == PixelWidth(cols[i], chars[i])
  {
    if cols == [] then []
    else
      var n := |cols|;
      assert forall i :: 0 <= i < n - 1 ==> cols[..n - 1][i] == cols[i] && chars[..n - 1][i] == chars[i];
      PixelWidths(cols[..n - 1], chars[..n - 1]) + [PixelWidth(cols[n - 1], chars[n - 1])]
  }

  /** The sizing loop: `col_px`. */
  method SizeColumns(charMax: seq<int>) returns (px: seq<int>)
    requires |charMax| == |Columns|
    ensures px == PixelWidths(Columns, charMax)
    ensures forall i :: 0 <= i < |Columns| ==> Columns[i].minPx <= px[i] <= Columns[i].maxPx
  {
    px := [];
    for j := 0 to |Columns|
      invariant px == PixelWidths(Columns[..j], charMax[..j])
    {
      assert Columns[..j + 1][..j] == Columns[..j] && charMax[..j + 1][..j] == charMax[..j];
      px := px + [PixelWidth(Columns[j], charMax[j])];
    }
    assert Columns[..|Columns|] == Columns && charMax[..|charMax|] == charMax;
    ColumnsWellFormed();
  }

  function Sum(xs: seq<int>): int {
    if xs == [] then 0 else Sum(xs[..|xs| - 1]) + xs[|xs| - 1]
  }

  /** `table_w`: the column widths, the gaps between them and the padding, at least 760. */
  function TableWidth(px: seq<int>): (w: int)
    ensures w >= 760 && w >= Sum(px) + Gap * (|Columns| - 1) + 2 * Padding
  {
    Max(Sum(px) + Gap * (|Columns| - 1) + Padding * 2, 760)
  }

  /** The x-position of column `i`: `table_x + 12` plus the widths and gaps of the columns before it. */
  function ColumnX(px: seq<int>, i: int): int
    requires 0 <= i <= |px|
  {
    TableX + 12 + Sum(px[..i]) + Gap * i
  }

  lemma ColumnXStep(px: seq<int>, i: int)
    requires 0 <= i < |px|
    ensures ColumnX(px, i + 1) == ColumnX(px, i) + px[i] + Gap
  {
    assert px[..i + 1][..i] == px[..i];
  }

  /** The position loop: `cur_x` starts at `table_x + 12` and advances by `px + gap`. */
  method ColumnPositions(px: seq<int>) returns (xs: seq<int>)
    ensures |xs| == |px| && forall i :: 0 <= i < |px| ==> xs[i] == ColumnX(px, i)
  {
    xs := [];
    var curX := TableX + 12;
    for j := 0 to |px|
      invariant |xs| == j && curX == ColumnX(px, j)
      invariant forall i :: 0 <= i < j ==> xs[i] == ColumnX(px, i)
    {
      xs := xs + [curX];
      ColumnXStep(px, j);
      curX := curX + px[j] + Gap;
    }
  }

  /** The first column starts at `table_x + 12`; each next one starts exactly `px + gap` after
      the previous, so with positive widths the positions strictly increase and columns do not
      overlap. */
  lemma {:induction false} ColumnsDoNotOverlap(px: seq<int>, i: int, j: int)
    requires forall k :: 0 <= k < |px| ==> px[k] > 0
    requires 0 <= i < j < |px|
    ensures ColumnX(px, 0) == TableX + 12
    ensures ColumnX(px, i) + px[i] + Gap <= ColumnX(px, j)
    decreases j - i
  {
    ColumnXStep(px, i);
    if i + 1 < j {
      ColumnsDoNotOverlap(px, i + 1, j);
    }
  }

  /** The last column ends inside the canvas, 6 pixels before its right edge or more. */
  lemma LastColumnInsideCanvas(px: seq<int>)
    requires |px| == |Columns|
    ensures ColumnX(px, |px| - 1) + px[|px| - 1] + 6 <= TableWidth(px)
  {
    ColumnXStep(px, |px| - 1);
    assert px[..|px|] == px;
  }

  /** The rows shown: all of them, or `repo_rows[:max_rows]`. */
  function VisibleRows(repoRows: seq<Repo>, maxRows: Option<int>): (rows: seq<Repo>)
    ensures |rows| <= |repoRows| && rows == repoRows[..|rows|]
    ensures maxRows.Some? && 0 <= maxRows.value <= |repoRows| ==> |rows| == maxRows.value
  {
    match maxRows
    case None => repoRows
    case Some(n) => PyPrefix(repoRows, n)
  }

  /** `wrap_limit`: the `wrap_chars` of the `description` column, 60 if there were none. */
  function WrapLimit(cols: seq<Column>): int {
    if cols == [] then 60 else if cols[0].key == "description" then cols[0].wrapChars else WrapLimit(cols[1..])
  }

  /** The description lines of a list of rows, in row order. */
  function DescriptionLines(rows: seq<Repo>, limit: int): (ls: seq<seq<string>>)
    ensures |ls| == |rows|
  {
    if rows == [] then [] else DescriptionLines(rows[..|rows| - 1], limit) + [DescLines(rows[|rows| - 1].description, limit)]
  }

  /** Row `i` of the table shows the wrapped description of visible row `i`. */
  lemma {:induction false} DescriptionLinesAt(rows: seq<Repo>, limit: int, i: int)
    requires 0 <= i < |rows|
    ensures DescriptionLines(rows, limit)[i] == DescLines(rows[i].description, limit)
  {
    if i < |rows| - 1 {
      DescriptionLinesAt(rows[..|rows| - 1], limit, i);
    }
  }

  /** The row loop: each visible row's wrapped description. */
  method WrapRows(rows: seq<Repo>, limit: int) returns (lines: seq<seq<string>>)
    ensures lines == DescriptionLines(rows, limit)
  {
    lines := [];
    for i := 0 to |rows|
      invariant lines == DescriptionLines(rows[..i], limit)
    {
      assert rows[..i + 1][..i] == rows[..i];
      var l := WrapDescription(rows[i].description, limit);
      lines := lines + [l];
    }
    assert rows[..|rows|] == rows;
  }

  /** `sum((r.get(key) or 0) for r in rows)` for an integer key. */
  function SumKey(rows: seq<Repo>, key: string): int {
    if rows == [] then 0 else SumKey(rows[..|rows| - 1], key) + OrZero(IntField(rows[|rows| - 1], key))
  }

  /** The header's download total as written: it sums `download_count`, a key no row holds. */
  function TotalDownloadsAsWritten(repoRows: seq<Repo>): int {
    SumKey(repoRows, "download_count")
  }

  /** The download total the header evidently means: the rows' `download_total`. */
  function TotalDownloads(repoRows: seq<Repo>): int {
    SumKey(repoRows, "download_total")
  }

  lemma DownloadKeys(r: Repo)
    ensures IntField(r, "download_total") == r.downloadsTotal
    ensures IntField(r, "download_count").None?
  {
  }

  /** As written the header always shows 0 downloads. */
  lemma {:induction false} TotalDownloadsAsWrittenIsZero(repoRows: seq<Repo>)
    ensures TotalDownloadsAsWritten(repoRows) == 0
  {
    if repoRows != [] {
      TotalDownloadsAsWrittenIsZero(repoRows[..|repoRows| - 1]);
      DownloadKeys(repoRows[|repoRows| - 1]);
    }
  }

  /** The corrected total adds every row's download count; with non-negative counts it is at
      least each of them, and one row with 5 downloads shows the difference. */
  lemma {:induction false} TotalDownloadsCountsRows(repoRows: seq<Repo>, i: int)
    requires forall k :: 0 <= k < |repoRows| ==> OrZero(repoRows[k].downloadsTotal) >= 0
    requires 0 <= i < |repoRows|
    ensures OrZero(repoRows[i].downloadsTotal) <= TotalDownloads(repoRows)
    ensures TotalDownloads(repoRows) >= 0
  {
    var p := repoRows[..|repoRows| - 1];
    assert forall k :: 0 <= k < |p| ==> p[k] == repoRows[k];
    DownloadKeys(repoRows[|p|]);
    assert TotalDownloads(repoRows) == TotalDownloads(p) + OrZero(repoRows[|p|].downloadsTotal);
    if p != [] {
      TotalDownloadsCountsRows(p, if i < |p| then i else 0);
    }
  }

  lemma OneRowShowsDifference(r: Repo)
    requires r.downloadsTotal == Some(5)
    ensures TotalDownloads([r]) == 5 && TotalDownloadsAsWritten([r]) == 0
  {
    DownloadKeys(r);
    assert [r][..0] == [];
    assert SumKey([r], "download_total") == SumKey([], "download_total") + OrZero(IntField(r, "download_total"));
    assert SumKey([r], "download_count") == SumKey([], "download_count") + OrZero(IntField(r, "download_count"));
  }

  datatype TableGeometry = TableGeometry(
    totalRepos: nat, totalClones: int, totalDownloads: int,
    charMax: seq<int>, px: seq<int>, xs: seq<int>,
    tableW: int, tableH: int, svgH: int,
    descLines: seq<seq<string>>)

  /** The sizes the table template receives. */
  method LayoutTable(repoRows: seq<Repo>, maxRows: Option<int>) returns (g: TableGeometry)
    ensures g.totalRepos == |repoRows| && g.totalClones == SumKey(repoRows, "clone_count")
    ensures g.totalDownloads == TotalDownloadsAsWritten(repoRows)
    ensures g.charMax == Estimates(Columns, VisibleRows(repoRows, maxRows))
    ensures g.px == PixelWidths(Columns, g.charMax)
    ensures forall i :: 0 <= i < |Columns| ==> Columns[i].minPx <= g.px[i] <= Columns[i].maxPx
    ensures |g.xs| == |Columns| && forall i :: 0 <= i < |Columns| ==> g.xs[i] == ColumnX(g.px, i)
    ensures g.tableW == TableWidth(g.px) && g.tableW >= 760
    ensures g.tableH == HeaderHeight + RowHeight * |VisibleRows(repoRows, maxRows)| + 2 * Padding
    ensures g.svgH == TableY + g.tableH + Padding
    ensures g.descLines == DescriptionLines(VisibleRows(repoRows, maxRows), WrapLimit(Columns))
  {
    var rows := VisibleRows(repoRows, maxRows);
    var charMax := MeasureColumns(Columns, rows);
    var px := SizeColumns(charMax);
    var tableW := TableWidth(px);
    var tableH := HeaderHeight + RowHeight * |rows| + Padding * 2;
    var xs := ColumnPositions(px);
    var lines := WrapRows(rows, WrapLimit(Columns));
    g := TableGeometry(|repoRows|, SumKey(repoRows, "clone_count"), TotalDownloadsAsWritten(repoRows),
                       charMax, px, xs, tableW, tableH, TableY + tableH + Padding, lines);
  }

  /** The description column wraps at 60 characters. */
  lemma WrapLimitIsSixty()
    ensures WrapLimit(Columns) == 60
  {
  }
}
