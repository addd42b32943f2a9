/**
 * The data-handling part of the chart section (apps/web/app/sections/Graphs.tsx):
 * where the points come from, the 30-line CSV preview, the row filter and
 * the range selector. CSV parsing and the float extraction of each point
 * are inputs: `rows` is what the parser produced, `toPoint` turns a row
 * into a point.
 */
module Graphs {
  import opened Wrappers
  import opened Text

  /** A parsed CSV row: column header to cell text. */
  type Row = map<string, string>

  const FrequencyColumn: string := "Freq."
  const ImpedanceColumn: string := "V(e1)/I(V1)"
  const PreviewLineCount: nat := 30

  function Min(a: int, b: int): int {
    if a < b then a else b
  }

  // ---------------------------------------------------------------------
  // filteredData

  /** `filteredData` for the selected `timeRange`. */
  function FilteredData<T>(chartData: seq<T>, timeRange: string): (r: seq<T>)
    ensures chartData == [] ==> r == []
    ensures timeRange !in {"first100", "first500", "last100"} ==> r == chartData
    ensures timeRange == "first100" ==> r == chartData[..Min(|chartData|, 100)]
    ensures timeRange == "first500" ==> r == chartData[..Min(|chartData|, 500)]
    ensures timeRange == "last100" ==> r == chartData[|chartData| - Min(|chartData|, 100)..]
  {
    if |chartData| == 0 then []
    else if timeRange == "all" then chartData
    else if timeRange == "first100" then Slice(chartData, 0, 100)
    else if timeRange == "first500" then Slice(chartData, 0, 500)
    else if timeRange == "last100" then SliceFrom(chartData, -100)
    else chartData
  }

  /** Whatever the range, the points shown are a contiguous run of the data, in order. */
  lemma FilteredIsWindow<T>(chartData: seq<T>, timeRange: string) returns (lo: nat)
    ensures lo + |FilteredData(chartData, timeRange)| <= |chartData|
    ensures FilteredData(chartData, timeRange) == chartData[lo..lo + |FilteredData(chartData, timeRange)|]
  {
    var n := |chartData|;
    if timeRange == "last100" && n > 0 {
      lo := n - Min(n, 100);
    } else {
      lo := 0;
    }
  }

  // ---------------------------------------------------------------------
  // the CSV path

  /**
   * `csvText.split("\n").slice(0, 30).join("\n")`: the text itself when it
   * has fewer than 30 line breaks, otherwise exactly its first 30 lines, cut
   * just before the 30th line break.
   */
  function Preview(csvText: string): (r: string)
    ensures StartsWith(csvText, r)
    ensures Count(r, '\n') < PreviewLineCount
    ensures Count(csvText, '\n') < PreviewLineCount ==> r == csvText
    ensures Count(csvText, '\n') >= PreviewLineCount ==>
      Count(r, '\n') == PreviewLineCount - 1 && |r| < |csvText| && csvText[|r|] == '\n'
  {
    var parts := Split(csvText, '\n');
    var k := Min(|parts|, PreviewLineCount);
    assert Slice(parts, 0, PreviewLineCount) == parts[..k];
    JoinSplit(csvText, '\n');
    JoinPrefix(parts, "\n", k);
    JoinCount(parts[..k], '\n');
    assert k == |parts| ==> parts[..k] == parts;
    Join(Slice(parts, 0, PreviewLineCount), "\n")
  }

  /** A cell is truthy: present and not empty. */
  predicate HasValue(row: Row, column: string) {
    column in row && row[column] != ""
  }

  /** The row filter: both the "Freq." and the "V(e1)/I(V1)" cell are truthy. */
  function HasBothColumns(row: Row): (keep: bool)
    ensures keep <==> "Freq." in row && row["Freq."] != "" && "V(e1)/I(V1)" in row && row["V(e1)/I(V1)"] != ""
  {
    HasValue(row, FrequencyColumn) && HasValue(row, ImpedanceColumn)
  }

  /** `rows.filter(...).map(...)`. */
  function FormatRows<P>(rows: seq<Row>, toPoint: Row -> P): (r: seq<P>)
    ensures |r| <= |rows|
    ensures (forall i :: 0 <= i < |rows| ==> HasBothColumns(rows[i])) ==>
      |r| == |rows| && forall i :: 0 <= i < |rows| ==> r[i] == toPoint(rows[i])
    ensures (forall i :: 0 <= i < |rows| ==> !HasBothColumns(rows[i])) ==> r == []
  {
    if rows == [] then []
    else Point(rows[0], toPoint) + FormatRows(rows[1..], toPoint)
  }

  /** What one row contributes: its point when it is kept, nothing otherwise. */
  function Point<P>(row: Row, toPoint: Row -> P): seq<P> {
    if HasBothColumns(row) then [toPoint(row)] else []
  }

  /** The pipeline works row by row, so it keeps the rows' order. */
  lemma {:induction false} FormatRowsAppend<P>(a: seq<Row>, b: seq<Row>, toPoint: Row -> P)
    ensures FormatRows(a + b, toPoint) == FormatRows(a, toPoint) + FormatRows(b, toPoint)
  {
    if a != [] {
      assert (a + b)[0] == a[0] && (a + b)[1..] == a[1..] + b;
      FormatRowsAppend(a[1..], b, toPoint);
    } else {
      assert a + b == b;
    }
  }

  /** A row lacking either column is dropped; any other row yields exactly one point, in its place. */
  lemma FormatRowsAt<P>(before: seq<Row>, row: Row, after: seq<Row>, toPoint: Row -> P)
    ensures !HasBothColumns(row) ==>
      FormatRows(before + [row] + after, toPoint) == FormatRows(before + after, toPoint)
    ensures HasBothColumns(row) ==>
      FormatRows(before + [row] + after, toPoint)
        == FormatRows(before, toPoint) + [toPoint(row)] + FormatRows(after, toPoint)
  {
    var single := FormatRows([row], toPoint);
    assert [row][1..] == [];
    assert single == if HasBothColumns(row) then [toPoint(row)] else [];
    FormatRowsAppend(before + [row], after, toPoint);
    FormatRowsAppend(before, [row], toPoint);
    FormatRowsAppend(before, after, toPoint);
    if !HasBothColumns(row) {
      assert FormatRows(before, toPoint) + single == FormatRows(before, toPoint);
    }
  }

  /** What the loading effect sets: the chart data, and the preview when the CSV path ran. */
  datatype ChartLoad<P> = ChartLoad(chartData: seq<P>, preview: Option<string>)

  /**
   * The loading effect. A non-empty `data` prop is used as it is; otherwise
   * the fetched CSV (None when the fetch fails, which sets nothing) gives
   * both the preview and the points of its complete rows.
   */
  function LoadChart<P>(data: Option<seq<P>>, csvText: Option<string>, rows: seq<Row>, toPoint: Row -> P): (r: Option<ChartLoad<P>>)
    ensures data.Some? && |data.value| > 0 ==> r == Some(ChartLoad(data.value, None))
    ensures !(data.Some? && |data.value| > 0) ==>
      (csvText.None? <==> r.None?)
      && (r.Some? ==> r.value.preview == Some(Preview(csvText.value))
                      && r.value.chartData == FormatRows(rows, toPoint))
  {
    if data.Some? && |data.value| > 0 then Some(ChartLoad(data.value, None))
    else if csvText.None? then None
    else Some(ChartLoad(FormatRows(rows, toPoint), Some(Preview(csvText.value))))
  }
}
