/** `evaluator/cell_locator.py`: the workbook activity map built directly
    from a worksheet, with its own copy of the column scan. */
module CellLocator {
  import opened Wrappers
  import opened Sheets
  import opened Layout
  import opened Mapping

  /** `build_activity_map`: builds the same activity map as the workbook
      path of the mapping module. */
  method BuildActivityMap(wb: Workbook, sheetName: string, header: string, activityRow: int)
    returns (r: Result<seq<Period>, LayoutError>)
    ensures r == ExcelLayout(wb, sheetName, header, activityRow)
  {
    if sheetName !in wb {
      return Err(MissingSheet);
    }
    var sheet := wb[sheetName];
    var headerRanges := HeaderRanges(sheet, header);
    if headerRanges == [] {
      return Err(NoHeader);
    }
    var trimesterMap := CollectPeriods(RowTasks(SheetCell(sheet), activityRow), 0, AsBlocks(headerRanges));
    if trimesterMap == [] {
      return Err(NoActivities);
    }
    return Ok(trimesterMap);
  }
}
