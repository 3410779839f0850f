/** `google_sheets_client.py`: the activity map built from the value grid
    the Sheets API returns, with 0-based column spans. Reading and writing
    through the API itself is not modelled. */
module GoogleSheetsClient {
  import opened Wrappers
  import opened PyText
  import opened Sheets
  import opened Layout
  import opened Grid
  import opened Mapping

  /** The task of column `c` (0-based) of the activity row: every value
      inside the row is searched, with no truthiness test. Block columns
      are never negative. */
  function ApiTask(row: seq<string>, c: int): Option<string> {
    if 0 <= c < |row| then TaskLabel(row[c]) else None
  }

  function ApiTasks(row: seq<string>): int -> Option<string> {
    c => ApiTask(row, c)
  }

  /** The activity map of a value grid as this client builds it: the same
      header starts and spans as the mapping module, but a grid without any
      task yields an empty map instead of an error. */
  function ApiLayout(data: seq<seq<string>>, header: string, activityRow: int): Result<seq<Period>, LayoutError> {
    var ari := activityRow - 1;
    if |data| <= ari then Err(TooFewRows)
    else
      var starts := HeaderColumns(data, header, ari);
      if starts == [] then Err(NoHeader)
      else
        HeaderColumnsNeedRows(data, header, ari);
        HeaderColumnsBounds(data, header, ari);
        GridBlocksStart(starts, |data[ari]|, 0, 1);
        var blocks := GridBlocks(starts, |data[ari]|, 0);
        Ok(PeriodsUpTo(ApiTasks(data[ari]), 1, blocks, |blocks|))
  }

  /** The map of a grid that has the activity row and a header start. */
  lemma {:induction false} ApiLayoutOk(data: seq<seq<string>>, header: string, activityRow: int)
    requires |data| > activityRow - 1 && HeaderColumns(data, header, activityRow - 1) != []
    ensures 0 <= activityRow - 1 < |data|
    ensures BlocksStartAt(GridBlocks(HeaderColumns(data, header, activityRow - 1), |data[activityRow - 1]|, 0), 1)
    ensures var starts, row := HeaderColumns(data, header, activityRow - 1), data[activityRow - 1];
      ApiLayout(data, header, activityRow) == Ok(PeriodsUpTo(ApiTasks(row), 1, GridBlocks(starts, |row|, 0), |starts|))
  {
    HeaderColumnsNeedRows(data, header, activityRow - 1);
    HeaderColumnsBounds(data, header, activityRow - 1);
    GridBlocksStart(HeaderColumns(data, header, activityRow - 1), |data[activityRow - 1]|, 0, 1);
  }

  /** `build_activity_map_from_api_data`. */
  method BuildActivityMapFromApiData(data: seq<seq<string>>, header: string, activityRow: int)
    returns (r: Result<seq<Period>, LayoutError>)
    ensures r == ApiLayout(data, header, activityRow)
  {
    var ari := activityRow - 1;
    if |data| <= ari {
      return Err(TooFewRows);
    }
    var starts := FindHeaderStarts(data, header, ari);
    if starts == [] {
      return Err(NoHeader);
    }
    HeaderColumnsNeedRows(data, header, ari);
    HeaderColumnsBounds(data, header, ari);
    GridBlocksStart(starts, |data[ari]|, 0, 1);
    var headerRanges := GridRanges(starts, |data[ari]|, 0);
    var trimesterMap := CollectPeriods(ApiTasks(data[ari]), 1, headerRanges);
    ApiLayoutOk(data, header, activityRow);
    return Ok(trimesterMap);
  }

  /** The client and the mapping module read a grid alike: they fail for the
      same reasons, and agree on every non-empty map; where no block has a
      task the client returns an empty map and the mapping module fails. */
  lemma {:induction false} ApiAgreesWithMapping(data: seq<seq<string>>, header: string, activityRow: int)
    ensures GsheetLayout(data, header, activityRow) ==
      if ApiLayout(data, header, activityRow) == Ok([]) then Err(NoActivities) else ApiLayout(data, header, activityRow)
  {
    var ari := activityRow - 1;
    if |data| > ari && HeaderColumns(data, header, ari) != [] {
      GsheetLayoutOk(data, header, activityRow);
      ApiLayoutOk(data, header, activityRow);
      var starts, row := HeaderColumns(data, header, ari), data[ari];
      ShiftedTasksAgree(data, header, ari, RowTasks(GridCell(data), activityRow), ApiTasks(row),
                        GridBlocks(starts, |row|, 1), GridBlocks(starts, |row|, 0));
    }
  }

  /** The two readings of one grid, with their blocks in hand. */
  lemma {:induction false} ShiftedTasksAgree(data: seq<seq<string>>, header: string, ari: int,
                          sheetTasks: int -> Option<string>, apiTasks: int -> Option<string>,
                          sheetBlocks: seq<Block>, apiBlocks: seq<Block>)
    requires 0 <= ari < |data|
    requires sheetTasks == RowTasks(GridCell(data), ari + 1) && apiTasks == ApiTasks(data[ari])
    requires sheetBlocks == GridBlocks(HeaderColumns(data, header, ari), |data[ari]|, 1)
    requires apiBlocks == GridBlocks(HeaderColumns(data, header, ari), |data[ari]|, 0)
    requires BlocksStartAt(sheetBlocks, 0) && BlocksStartAt(apiBlocks, 1)
    ensures var ps := PeriodsUpTo(apiTasks, 1, apiBlocks, |apiBlocks|);
      Assemble(sheetTasks, 0, sheetBlocks) == if ps == [] then Err(NoActivities) else Ok(ps)
  {
    ApiTasksAgree(data, ari, apiTasks, sheetTasks);
    GridBlocksShifted(data, header, ari, sheetBlocks, apiBlocks);
    AssembleShiftLeft(sheetTasks, sheetBlocks, apiTasks, apiBlocks);
  }

  /** `AssembleShift` for a scan one column to the left of the other. */
  lemma {:induction false} AssembleShiftLeft(taskAt: int -> Option<string>, blocks: seq<Block>, taskAt': int -> Option<string>, blocks': seq<Block>)
    requires |blocks| == |blocks'| && BlocksStartAt(blocks, 0) && BlocksStartAt(blocks', 1)
    requires forall i :: 0 <= i < |blocks| ==> blocks[i].minCol >= 1 && blocks'[i] == Block(blocks[i].minCol + -1, blocks[i].maxCol + -1)
    requires forall c :: c >= 1 ==> taskAt'(c + -1) == taskAt(c)
    ensures var ps' := PeriodsUpTo(taskAt', 1, blocks', |blocks'|);
      Assemble(taskAt, 0, blocks) == if ps' == [] then Err(NoActivities) else Ok(ps')
  {
    AssembleShift(taskAt, 0, blocks, taskAt', 1, blocks', -1);
  }

  /** The mapping module's map of a grid that has the activity row and a
      header start. */
  lemma {:induction false} GsheetLayoutOk(data: seq<seq<string>>, header: string, activityRow: int)
    requires |data| > activityRow - 1 && HeaderColumns(data, header, activityRow - 1) != []
    ensures 0 <= activityRow - 1 < |data|
    ensures BlocksStartAt(GridBlocks(HeaderColumns(data, header, activityRow - 1), |data[activityRow - 1]|, 1), 0)
    ensures var starts, row := HeaderColumns(data, header, activityRow - 1), data[activityRow - 1];
      GsheetLayout(data, header, activityRow) == Assemble(RowTasks(GridCell(data), activityRow), 0, GridBlocks(starts, |row|, 1))
  {
    HeaderColumnsNeedRows(data, header, activityRow - 1);
    HeaderColumnsBounds(data, header, activityRow - 1);
    GridBlocksStart(HeaderColumns(data, header, activityRow - 1), |data[activityRow - 1]|, 1, 0);
  }

  /** The 0-based blocks are the 1-based ones moved one column left, and
      both start where their readers can read. */
  lemma {:induction false} GridBlocksShifted(data: seq<seq<string>>, header: string, ari: int, blocks: seq<Block>, blocks': seq<Block>)
    requires 0 <= ari < |data|
    requires blocks == GridBlocks(HeaderColumns(data, header, ari), |data[ari]|, 1)
    requires blocks' == GridBlocks(HeaderColumns(data, header, ari), |data[ari]|, 0)
    ensures |blocks| == |blocks'| && BlocksStartAt(blocks, 0) && BlocksStartAt(blocks', 1)
    ensures forall i :: 0 <= i < |blocks| ==> blocks[i].minCol >= 1 && blocks'[i] == Block(blocks[i].minCol + -1, blocks[i].maxCol + -1)
  {
    HeaderColumnsBounds(data, header, ari);
  }

  /** Past the first column, the client reads one column to the left what
      the mapping module reads through its out-of-range-safe cell. */
  lemma {:induction false} ApiTasksAgree(data: seq<seq<string>>, ari: int, apiTasks: int -> Option<string>, sheetTasks: int -> Option<string>)
    requires 0 <= ari < |data|
    requires apiTasks == ApiTasks(data[ari]) && sheetTasks == RowTasks(GridCell(data), ari + 1)
    ensures forall c :: c >= 1 ==> apiTasks(c + -1) == sheetTasks(c)
  {
    forall c | c >= 1 ensures apiTasks(c + -1) == sheetTasks(c) {
      ApiTaskApplied(data, ari, c, apiTasks, sheetTasks);
    }
  }

  lemma {:induction false} ApiTaskApplied(data: seq<seq<string>>, ari: int, c: int, apiTasks: int -> Option<string>, sheetTasks: int -> Option<string>)
    requires 0 <= ari < |data| && c >= 1
    requires apiTasks == ApiTasks(data[ari]) && sheetTasks == RowTasks(GridCell(data), ari + 1)
    ensures apiTasks(c + -1) == sheetTasks(c)
  {
    ApiTaskAt(data, ari, c);
    assert apiTasks(c + -1) == ApiTask(data[ari], c - 1);
    assert sheetTasks(c) == CellTask(GridCell(data)(ari + 1, c));
  }

  /** One activity-row column read both ways. */
  lemma {:induction false} ApiTaskAt(data: seq<seq<string>>, ari: int, c: int)
    requires 0 <= ari < |data| && c >= 1
    ensures ApiTask(data[ari], c - 1) == CellTask(GridCell(data)(ari + 1, c))
  {
    GridCellAt(data, ari, c);
  }
}
