/** `evaluator/mapping.py`: the activity map (periods of the evaluation sheet
    and the column of every task in each) built either from an openpyxl
    workbook, whose period blocks are merged header ranges, or from a Google
    Sheets value grid, whose blocks run from one header start to the next. */
module Mapping {
  import opened Wrappers
  import opened PyText
  import opened Sheets
  import opened Sorting
  import opened Layout
  import opened Grid

  /** The task named by one activity-row cell: cells with a falsy value are
      skipped, the others searched for the task pattern. */
  function CellTask(v: Value): Option<string> {
    if Truthy(v) then TaskLabel(Str(v)) else None
  }

  /** The task of every column of the activity row of a sheet read through `cell(row, column)`. */
  function RowTasks(cell: (int, int) -> Value, activityRow: int): int -> Option<string> {
    c => CellTask(cell(activityRow, c))
  }

  /** `_build_map_logic`: scan each block's columns of the activity row, keep
      the blocks that have tasks as named periods, fail when none has one. */
  method BuildMapLogic(cell: (int, int) -> Value, headerRanges: seq<Block>, activityRow: int)
    returns (r: Result<seq<Period>, LayoutError>)
    requires BlocksStartAt(headerRanges, 0)
    ensures r == Assemble(RowTasks(cell, activityRow), 0, headerRanges)
  {
    var trimesterMap := CollectPeriods(RowTasks(cell, activityRow), 0, headerRanges);
    if trimesterMap == [] {
      return Err(NoActivities);
    }
    return Ok(trimesterMap);
  }

  // ---------------------------------------------------------------------------
  // Workbooks

  /** `sheet.cell(row, column).value` of a worksheet. */
  function SheetCell(ws: Worksheet): (int, int) -> Value {
    (row, col) => CellAt(ws, row, col)
  }

  /** A merged range is a period header when its top-left cell contains the
      header text, ignoring case (a falsy value reads as ''). */
  predicate IsHeaderRange(ws: Worksheet, header: string, r: MergedRange) {
    ContainsIgnoreCase(StrOrEmpty(CellAt(ws, r.minRow, r.minCol)), header)
  }

  /** The header ranges among `rs`, in their order. */
  function HeaderFilter(ws: Worksheet, header: string, rs: seq<MergedRange>): seq<MergedRange> {
    if rs == [] then []
    else (if IsHeaderRange(ws, header, rs[0]) then [rs[0]] else []) + HeaderFilter(ws, header, rs[1..])
  }

  function StartCol(r: MergedRange): int {
    r.minCol
  }

  /** The header ranges of the sheet sorted (stably) by first column. */
  function HeaderRanges(ws: Worksheet, header: string): seq<MergedRange> {
    SortBy(HeaderFilter(ws, header, ws.merged), StartCol)
  }

  function AsBlocks(rs: seq<MergedRange>): (bs: seq<Block>)
    ensures |bs| == |rs| && BlocksStartAt(bs, 0)
    ensures forall i :: 0 <= i < |rs| ==> bs[i] == Block(rs[i].minCol, rs[i].maxCol)
  {
    seq(|rs|, i requires 0 <= i < |rs| => Block(rs[i].minCol, rs[i].maxCol))
  }

  /** The activity map of a workbook sheet, or the reason there is none. */
  function ExcelLayout(wb: Workbook, sheetName: string, header: string, activityRow: int): Result<seq<Period>, LayoutError> {
    if sheetName !in wb then Err(MissingSheet)
    else
      var ws := wb[sheetName];
      var ranges := HeaderRanges(ws, header);
      if ranges == [] then Err(NoHeader)
      else Assemble(RowTasks(SheetCell(ws), activityRow), 0, AsBlocks(ranges))
  }

  /** `build_map_from_excel`. */
  method BuildMapFromExcel(wb: Workbook, sheetName: string, header: string, activityRow: int)
    returns (r: Result<seq<Period>, LayoutError>)
    ensures r == ExcelLayout(wb, sheetName, header, activityRow)
  {
    if sheetName !in wb {
      return Err(MissingSheet);
    }
    var ws := wb[sheetName];
    var ranges := HeaderRanges(ws, header);
    if ranges == [] {
      return Err(NoHeader);
    }
    r := BuildMapLogic(SheetCell(ws), AsBlocks(ranges), activityRow);
  }

  lemma {:induction false} HeaderFilterMembers(ws: Worksheet, header: string, rs: seq<MergedRange>)
    ensures forall r :: r in HeaderFilter(ws, header, rs) <==> r in rs && IsHeaderRange(ws, header, r)
  {
    if rs != [] {
      HeaderFilterMembers(ws, header, rs[1..]);
      assert rs == [rs[0]] + rs[1..];
    }
  }

  /** The header ranges are exactly the merged ranges whose top-left cell
      holds the header text, ordered by first column. */
  lemma {:induction false} HeaderRangesMembers(ws: Worksheet, header: string)
    ensures forall r :: r in HeaderRanges(ws, header) <==> r in ws.merged && IsHeaderRange(ws, header, r)
    ensures SortedBy(HeaderRanges(ws, header), StartCol)
  {
    var f := HeaderFilter(ws, header, ws.merged);
    HeaderFilterMembers(ws, header, ws.merged);
    SortByPermutes(f, StartCol);
    SortBySorted(f, StartCol);
    forall r ensures r in HeaderRanges(ws, header) <==> r in f {
      assert r in HeaderRanges(ws, header) <==> r in multiset(HeaderRanges(ws, header));
      assert r in f <==> r in multiset(f);
    }
  }

  /** Each merged header range appears as often as in the sheet, and header
      ranges that start in the same column keep the sheet's order. */
  lemma {:induction false} HeaderRangesOrder(ws: Worksheet, header: string, k: int)
    ensures multiset(HeaderRanges(ws, header)) == multiset(HeaderFilter(ws, header, ws.merged))
    ensures WithKey(HeaderRanges(ws, header), StartCol, k) == WithKey(HeaderFilter(ws, header, ws.merged), StartCol, k)
  {
    SortByPermutes(HeaderFilter(ws, header, ws.merged), StartCol);
    SortByStable(HeaderFilter(ws, header, ws.merged), StartCol, k);
  }

  /** A missing sheet and a sheet without header ranges are the two
      failures raised before any column is scanned. */
  lemma {:induction false} ExcelLayoutErrors(wb: Workbook, sheetName: string, header: string, activityRow: int)
    ensures ExcelLayout(wb, sheetName, header, activityRow) == Err(MissingSheet) <==> sheetName !in wb
    ensures ExcelLayout(wb, sheetName, header, activityRow) == Err(NoHeader) <==>
      sheetName in wb && forall r :: r in wb[sheetName].merged ==> !IsHeaderRange(wb[sheetName], header, r)
  {
    if sheetName in wb {
      var ws := wb[sheetName];
      HeaderRangesMembers(ws, header);
      var rs := HeaderRanges(ws, header);
      assert rs != [] ==> rs[0] in rs;
    }
  }

  /** Every task of a workbook period sits in a column of the period's
      header range whose activity-row cell names it, the rightmost such
      column of that range. */
  lemma {:induction false} ExcelTaskColumn(wb: Workbook, sheetName: string, header: string, activityRow: int, k: int, l: string)
    requires ExcelLayout(wb, sheetName, header, activityRow).Ok?
    requires 0 <= k < |ExcelLayout(wb, sheetName, header, activityRow).value|
    requires l in ExcelLayout(wb, sheetName, header, activityRow).value[k].tasks
    ensures sheetName in wb
    ensures var ws := wb[sheetName];
      exists r, c :: (r in ws.merged && IsHeaderRange(ws, header, r) && r.minCol <= c <= r.maxCol
        && ExcelLayout(wb, sheetName, header, activityRow).value[k].tasks[l] == ColumnLetter(c)
        && CellTask(CellAt(ws, activityRow, c)) == Some(l)
        && forall c' :: c < c' <= r.maxCol ==> CellTask(CellAt(ws, activityRow, c')) != Some(l))
  {
    var ws := wb[sheetName];
    var ranges := HeaderRanges(ws, header);
    var blocks := AsBlocks(ranges);
    var tasksOf := RowTasks(SheetCell(ws), activityRow);
    var ps := ExcelLayout(wb, sheetName, header, activityRow).value;
    assert ps == PeriodsUpTo(tasksOf, 0, blocks, |blocks|);
    PeriodTaskColumn(tasksOf, 0, blocks, k, l);
    var i, c :| 0 <= i < |blocks| && RightmostTaskColumn(tasksOf, 0, blocks[i], ps[k].tasks, l, c);
    HeaderRangesMembers(ws, header);
    assert ranges[i] in ranges;
    assert tasksOf(c) == CellTask(CellAt(ws, activityRow, c));
    forall c' | c < c' <= ranges[i].maxCol ensures CellTask(CellAt(ws, activityRow, c')) != Some(l) {
      assert tasksOf(c') == CellTask(CellAt(ws, activityRow, c'));
    }
  }

  // ---------------------------------------------------------------------------
  // Google Sheets value grids

  /** The activity map of a value grid, or the reason there is none. */
  function GsheetLayout(data: seq<seq<string>>, header: string, activityRow: int): Result<seq<Period>, LayoutError> {
    var ari := activityRow - 1;
    if |data| <= ari then Err(TooFewRows)
    else
      var starts := HeaderColumns(data, header, ari);
      if starts == [] then Err(NoHeader)
      else
        HeaderColumnsNeedRows(data, header, ari);
        HeaderColumnsBounds(data, header, ari);
        GridBlocksStart(starts, |data[ari]|, 1, 0);
        Assemble(RowTasks(GridCell(data), activityRow), 0, GridBlocks(starts, |data[ari]|, 1))
  }

  /** `build_map_from_gsheet_data`. */
  method BuildMapFromGsheetData(data: seq<seq<string>>, header: string, activityRow: int)
    returns (r: Result<seq<Period>, LayoutError>)
    ensures r == GsheetLayout(data, header, activityRow)
  {
    var ari := activityRow - 1;
    if |data| <= ari {
      return Err(TooFewRows);
    }
    var starts := FindHeaderStarts(data, header, ari);
    if starts == [] {
      return Err(NoHeader);
    }
    HeaderColumnsNeedRows(data, header, ari);
    HeaderColumnsBounds(data, header, ari);
    GridBlocksStart(starts, |data[ari]|, 1, 0);
    var ranges := GridRanges(starts, |data[ari]|, 1);
    r := BuildMapLogic(GridCell(data), ranges, activityRow);
  }

  /** Too few rows, then a missing header, are the failures raised before
      any column is scanned. */
  lemma {:induction false} GsheetLayoutErrors(data: seq<seq<string>>, header: string, activityRow: int)
    ensures GsheetLayout(data, header, activityRow) == Err(TooFewRows) <==> |data| <= activityRow - 1
    ensures GsheetLayout(data, header, activityRow) == Err(NoHeader) <==>
      |data| > activityRow - 1 && NoHeaderStart(data, header, activityRow - 1)
  {
    var hc := HeaderColumns(data, header, activityRow - 1);
    HeaderColumnsMembers(data, header, activityRow - 1);
    assert hc != [] ==> hc[0] in hc;
  }

  /** Every task of a grid period sits in that period's block, in a column
      whose activity-row value names it. */
  lemma {:induction false} GsheetTaskColumn(data: seq<seq<string>>, header: string, activityRow: int, k: int, l: string)
    requires GsheetLayout(data, header, activityRow).Ok?
    requires 0 <= k < |GsheetLayout(data, header, activityRow).value|
    requires l in GsheetLayout(data, header, activityRow).value[k].tasks
    ensures 1 <= activityRow <= |data|
    ensures var starts := HeaderColumns(data, header, activityRow - 1);
      var row := data[activityRow - 1];
      exists i, c :: (0 <= i < |starts| && InBlock(GridBlock(starts, |row|, 1, i), c) && 1 <= c <= |row|
        && GsheetLayout(data, header, activityRow).value[k].tasks[l] == ColumnLetter(c)
        && TaskLabel(row[c - 1]) == Some(l))
  {
    var ari := activityRow - 1;
    var starts := HeaderColumns(data, header, ari);
    HeaderColumnsNeedRows(data, header, ari);
    HeaderColumnsBounds(data, header, ari);
    var row := data[ari];
    var blocks := GridBlocks(starts, |row|, 1);
    GridBlocksStart(starts, |row|, 1, 0);
    var tasksOf := RowTasks(GridCell(data), activityRow);
    var ps := GsheetLayout(data, header, activityRow).value;
    assert ps == PeriodsUpTo(tasksOf, 0, blocks, |blocks|);
    PeriodTaskColumn(tasksOf, 0, blocks, k, l);
    var i, c :| 0 <= i < |blocks| && RightmostTaskColumn(tasksOf, 0, blocks[i], ps[k].tasks, l, c);
    GridCellAt(data, ari, c);
    assert tasksOf(c) == CellTask(GridCell(data)(ari + 1, c));
  }

  /** Reading activity-row column `c` (1-based, past the first column of a
      block) of the grid: the value there, or nothing past the row's end. */
  lemma {:induction false} GridCellAt(data: seq<seq<string>>, ari: int, c: int)
    requires 0 <= ari < |data| && c >= 1
    ensures CellTask(GridCell(data)(ari + 1, c)) == if c <= |data[ari]| then TaskLabel(data[ari][c - 1]) else None
  {
    var row := data[ari];
    assert PyIndex(data, ari + 1 - 1) == Some(row);
    if c <= |row| {
      assert PyIndex(row, c - 1) == Some(row[c - 1]);
      assert GridCell(data)(ari + 1, c) == Text(row[c - 1]);
      if row[c - 1] == "" {
        TaskLabelEmpty();
      }
    } else {
      assert PyIndex(row, c - 1) == None;
      assert GridCell(data)(ari + 1, c) == Blank;
    }
  }
}
