/** `evaluator/test_locator.py`: the older, list-valued activity mapping.
    Every occurrence of a task label in a header block adds the reference
    of its activity-row cell ("D9") to that label's list, and each list is
    then sorted by column.  The two closures it returns, the student-row
    finder and the grade-cell lookup, are functions of the worksheet here. */
module TestLocator {
  import opened Wrappers
  import opened PyText
  import opened Sheets
  import opened Sorting
  import opened Layout
  import opened Mapping

  // ---------------------------------------------------------------------------
  // Header blocks

  /** This variant's header test: the top-left value must be truthy and
      contain the header text, ignoring case. */
  predicate IsTestHeader(ws: Worksheet, header: string, r: MergedRange) {
    var v := CellAt(ws, r.minRow, r.minCol);
    Truthy(v) && ContainsIgnoreCase(Str(v), header)
  }

  /** The header ranges among `rs`, kept in the sheet's order (this variant does not sort them). */
  function TestHeaders(ws: Worksheet, header: string, rs: seq<MergedRange>): seq<MergedRange> {
    if rs == [] then []
    else (if IsTestHeader(ws, header, rs[0]) then [rs[0]] else []) + TestHeaders(ws, header, rs[1..])
  }

  lemma {:induction false} TestHeadersMembers(ws: Worksheet, header: string, rs: seq<MergedRange>)
    ensures forall r :: r in TestHeaders(ws, header, rs) <==> r in rs && IsTestHeader(ws, header, r)
  {
    if rs != [] {
      TestHeadersMembers(ws, header, rs[1..]);
      assert rs == [rs[0]] + rs[1..];
    }
  }

  /** For a non-empty header text the truthiness test changes nothing: the
      ranges scanned are those the mapping module keeps, before its sort. */
  lemma {:induction false} TestHeadersAgree(ws: Worksheet, header: string, rs: seq<MergedRange>)
    requires header != ""
    ensures TestHeaders(ws, header, rs) == HeaderFilter(ws, header, rs)
  {
    if rs != [] {
      var v := CellAt(ws, rs[0].minRow, rs[0].minCol);
      if !Truthy(v) {
        assert StrOrEmpty(v) == "";
        assert |LowerStr(header)| > 0;
        assert !ContainsIgnoreCase("", header);
      }
      TestHeadersAgree(ws, header, rs[1..]);
    }
  }

  // ---------------------------------------------------------------------------
  // Task references

  /** The labelled columns among `lo .. hi - 1`, left to right. */
  function ColumnHits(taskAt: int -> Option<string>, lo: Pos, hi: int): seq<(string, Pos)>
    decreases hi - lo
  {
    if hi <= lo then []
    else ColumnHits(taskAt, lo, hi - 1) + (if taskAt(hi - 1).Some? then [(taskAt(hi - 1).value, hi - 1)] else [])
  }

  /** The labelled columns of the first `n` ranges, range after range. */
  function RangeHits(taskAt: int -> Option<string>, ranges: seq<MergedRange>, n: nat): seq<(string, Pos)>
    requires n <= |ranges|
  {
    if n == 0 then []
    else RangeHits(taskAt, ranges, n - 1) + ColumnHits(taskAt, ranges[n - 1].minCol, ranges[n - 1].maxCol + 1)
  }

  /** The dictionary the occurrences build: each label maps to the
      references of its cells, as `refOf` writes them, one per occurrence, appended in
      order. */
  function Group(hits: seq<(string, Pos)>, refOf: Pos -> string): map<string, seq<string>> {
    if hits == [] then map[]
    else
      var m := Group(hits[..|hits| - 1], refOf);
      var l := hits[|hits| - 1].0;
      m[l := (if l in m then m[l] else []) + [refOf(hits[|hits| - 1].1)]]
  }

  /** The references of the occurrences of label `l`, in order. */
  function RefsOf(hits: seq<(string, Pos)>, l: string, refOf: Pos -> string): seq<string> {
    if hits == [] then []
    else RefsOf(hits[..|hits| - 1], l, refOf) + (if hits[|hits| - 1].0 == l then [refOf(hits[|hits| - 1].1)] else [])
  }

  /** Label `l` occurs among `hits`. */
  predicate Occurs(hits: seq<(string, Pos)>, l: string) {
    exists i :: 0 <= i < |hits| && hits[i].0 == l
  }

  /** The dictionary holds exactly the labels that occur, and each label's
      list is the references of its occurrences in order: none is lost and
      none is merged. */
  lemma {:induction false} GroupIsFilter(hits: seq<(string, Pos)>, refOf: Pos -> string)
    ensures forall l :: l in Group(hits, refOf) <==> Occurs(hits, l)
    ensures forall l :: l in Group(hits, refOf) ==> Group(hits, refOf)[l] == RefsOf(hits, l, refOf) && |RefsOf(hits, l, refOf)| > 0
  {
    if hits != [] {
      var init := hits[..|hits| - 1];
      GroupIsFilter(init, refOf);
      forall l ensures Occurs(hits, l) <==> Occurs(init, l) || hits[|hits| - 1].0 == l {
        OccursSnoc(hits, l);
      }
      forall l | l in Group(init, refOf) && l != hits[|hits| - 1].0 ensures RefsOf(hits, l, refOf) == RefsOf(init, l, refOf) {
      }
      forall l | l !in Group(init, refOf) ensures RefsOf(init, l, refOf) == [] {
        RefsOfAbsent(init, l, refOf);
      }
    }
  }

  /** A label occurs in a non-empty list when it occurs before the last
      element or is that element's label. */
  lemma {:induction false} OccursSnoc(hits: seq<(string, Pos)>, l: string)
    requires hits != []
    ensures Occurs(hits, l) <==> Occurs(hits[..|hits| - 1], l) || hits[|hits| - 1].0 == l
  {
    var init := hits[..|hits| - 1];
    if Occurs(hits, l) {
      var i :| 0 <= i < |hits| && hits[i].0 == l;
      if i < |init| {
        assert init[i].0 == l;
      }
    }
    if Occurs(init, l) {
      var i :| 0 <= i < |init| && init[i].0 == l;
      assert hits[i].0 == l;
    }
  }

  lemma {:induction false} RefsOfAbsent(hits: seq<(string, Pos)>, l: string, refOf: Pos -> string)
    requires forall i :: 0 <= i < |hits| ==> hits[i].0 != l
    ensures RefsOf(hits, l, refOf) == []
  {
    if hits != [] {
      RefsOfAbsent(hits[..|hits| - 1], l, refOf);
    }
  }

  /** `column_index_from_string` of the letters of a reference (0 when it has none). */
  function RefColumn(ref: string): int {
    var letters := Letters(ref);
    if IsColumnName(letters) then ColumnIndex(letters) else 0
  }

  /** The sort key of a reference "D9" is the column it names. */
  lemma {:induction false} RefColumnOfCellRef(col: Pos, row: int)
    ensures RefColumn(CellRef(col, row)) == col
  {
    LettersOfCellRef(col, row);
    ColumnRoundTrip(col);
  }

  /** The reference `f"{col_letter}{activity_row}"` of a column on the activity row. */
  function RowRef(row: int): Pos -> string {
    (c: Pos) => CellRef(c, row)
  }

  /** Every list sorted by the column of its references. */
  function SortedRefs(m: map<string, seq<string>>): map<string, seq<string>> {
    map l | l in m :: SortBy(m[l], RefColumn)
  }

  /** The mapping of a workbook sheet, or `MissingSheet` where `wb[sheet_name]` raises KeyError. */
  function TestMapping(wb: Workbook, sheetName: string, header: string, activityRow: int)
    : Result<map<string, seq<string>>, LayoutError>
  {
    if sheetName !in wb then Err(MissingSheet)
    else
      var ws := wb[sheetName];
      var ranges := TestHeaders(ws, header, ws.merged);
      Ok(SortedRefs(Group(RangeHits(RowTasks(SheetCell(ws), activityRow), ranges, |ranges|), RowRef(activityRow))))
  }

  /** The collecting loops of `build_activity_mapping`: every labelled
      column of every range appends its reference to its label's list. */
  method CollectRefs(taskAt: int -> Option<string>, ranges: seq<MergedRange>, refOf: Pos -> string)
    returns (mapping: map<string, seq<string>>)
    ensures mapping == Group(RangeHits(taskAt, ranges, |ranges|), refOf)
  {
    mapping := map[];
    var i := 0;
    while i < |ranges|
      invariant 0 <= i <= |ranges|
      invariant mapping == Group(RangeHits(taskAt, ranges, i), refOf)
    {
      mapping := CollectColumnRefs(taskAt, RangeHits(taskAt, ranges, i), mapping, ranges[i].minCol, ranges[i].maxCol + 1, refOf);
      assert RangeHits(taskAt, ranges, i + 1) == RangeHits(taskAt, ranges, i) + ColumnHits(taskAt, ranges[i].minCol, ranges[i].maxCol + 1);
      i := i + 1;
    }
  }

  /** The column loop for one range, continuing the dictionary built from `before`. */
  method CollectColumnRefs(taskAt: int -> Option<string>, ghost before: seq<(string, Pos)>, mapping: map<string, seq<string>>,
                           lo: Pos, hi: int, refOf: Pos -> string)
    returns (mapping': map<string, seq<string>>)
    requires mapping == Group(before, refOf)
    ensures mapping' == Group(before + ColumnHits(taskAt, lo, hi), refOf)
  {
    mapping' := mapping;
    var col: Pos := lo;
    assert before + ColumnHits(taskAt, lo, col) == before;
    while col < hi
      invariant lo <= col && (col <= hi || col == lo)
      invariant mapping' == Group(before + ColumnHits(taskAt, lo, col), refOf)
    {
      var found := taskAt(col);
      GroupStep(taskAt, before, lo, col, refOf);
      if found.Some? {
        var taskName := found.value;
        var refs := if taskName in mapping' then mapping'[taskName] else [];
        mapping' := mapping'[taskName := refs + [refOf(col)]];
      }
      col := col + 1;
    }
  }

  /** One more column extends the dictionary by that column's occurrence, if any. */
  lemma {:induction false} GroupStep(taskAt: int -> Option<string>, before: seq<(string, Pos)>, lo: Pos, col: Pos, refOf: Pos -> string)
    requires lo <= col
    ensures var m := Group(before + ColumnHits(taskAt, lo, col), refOf);
      Group(before + ColumnHits(taskAt, lo, col + 1), refOf) ==
        match taskAt(col)
        case None => m
        case Some(l) => m[l := (if l in m then m[l] else []) + [refOf(col)]]
  {
    var hits := before + ColumnHits(taskAt, lo, col);
    match taskAt(col)
    case None =>
      assert before + ColumnHits(taskAt, lo, col + 1) == hits;
    case Some(l) =>
      var hits' := before + ColumnHits(taskAt, lo, col + 1);
      assert hits' == hits + [(l, col)];
      assert hits'[..|hits'| - 1] == hits;
  }

  /** The sorting loop: each label's list sorted in place by column. */
  method SortRefLists(m: map<string, seq<string>>) returns (m': map<string, seq<string>>)
    ensures m' == SortedRefs(m)
  {
    m' := m;
    var todo := m.Keys;
    while todo != {}
      invariant todo <= m.Keys && m'.Keys == m.Keys
      invariant forall l :: l in m && l !in todo ==> m'[l] == SortBy(m[l], RefColumn)
      invariant forall l :: l in todo ==> m'[l] == m[l]
      decreases |todo|
    {
      var l :| l in todo;
      m' := m'[l := SortBy(m'[l], RefColumn)];
      todo := todo - {l};
    }
  }

  /** `build_activity_mapping` (its dictionary). */
  method BuildActivityMapping(wb: Workbook, sheetName: string, header: string, activityRow: int)
    returns (r: Result<map<string, seq<string>>, LayoutError>)
    ensures r == TestMapping(wb, sheetName, header, activityRow)
  {
    if sheetName !in wb {
      return Err(MissingSheet);
    }
    var ws := wb[sheetName];
    var mergedRanges := TestHeaders(ws, header, ws.merged);
    var mapping := CollectRefs(RowTasks(SheetCell(ws), activityRow), mergedRanges, RowRef(activityRow));
    mapping := SortRefLists(mapping);
    return Ok(mapping);
  }

  /** Every reference of an occurrence list names a labelled column of one
      of the scanned ranges, on the given row. */
  lemma {:induction false} RangeHitsColumns(taskAt: int -> Option<string>, ranges: seq<MergedRange>, n: nat, i: int)
    requires n <= |ranges| && 0 <= i < |RangeHits(taskAt, ranges, n)|
    ensures var h := RangeHits(taskAt, ranges, n)[i];
      taskAt(h.1) == Some(h.0) && exists k :: 0 <= k < n && ranges[k].minCol <= h.1 <= ranges[k].maxCol
  {
    var prev := RangeHits(taskAt, ranges, n - 1);
    var cols := ColumnHits(taskAt, ranges[n - 1].minCol, ranges[n - 1].maxCol + 1);
    if i < |prev| {
      RangeHitsColumns(taskAt, ranges, n - 1, i);
      assert RangeHits(taskAt, ranges, n)[i] == prev[i];
    } else {
      assert RangeHits(taskAt, ranges, n)[i] == cols[i - |prev|];
      ColumnHitsColumns(taskAt, ranges[n - 1].minCol, ranges[n - 1].maxCol + 1, i - |prev|);
    }
  }

  lemma {:induction false} ColumnHitsColumns(taskAt: int -> Option<string>, lo: Pos, hi: int, i: int)
    requires 0 <= i < |ColumnHits(taskAt, lo, hi)|
    ensures var h := ColumnHits(taskAt, lo, hi)[i];
      taskAt(h.1) == Some(h.0) && lo <= h.1 < hi
    decreases hi - lo
  {
    var prev := ColumnHits(taskAt, lo, hi - 1);
    if i < |prev| {
      ColumnHitsColumns(taskAt, lo, hi - 1, i);
      assert ColumnHits(taskAt, lo, hi)[i] == prev[i];
    }
  }

  /** Each label's final list holds the references of its occurrences, each
      once per occurrence, ordered by column, with occurrences in the same
      column kept in scan order. */
  lemma {:induction false} TestMappingLists(hits: seq<(string, Pos)>, refOf: Pos -> string, l: string, k: int)
    requires l in SortedRefs(Group(hits, refOf))
    ensures var refs := SortedRefs(Group(hits, refOf))[l];
      |refs| > 0 && SortedBy(refs, RefColumn)
      && multiset(refs) == multiset(RefsOf(hits, l, refOf))
      && WithKey(refs, RefColumn, k) == WithKey(RefsOf(hits, l, refOf), RefColumn, k)
  {
    GroupIsFilter(hits, refOf);
    var refs := RefsOf(hits, l, refOf);
    SortBySorted(refs, RefColumn);
    SortByPermutes(refs, RefColumn);
    SortByStable(refs, RefColumn, k);
    assert |SortBy(refs, RefColumn)| == |multiset(refs)|;
  }

  lemma {:induction false} RefsOfMembers(hits: seq<(string, Pos)>, l: string, refOf: Pos -> string, x: string)
    requires x in RefsOf(hits, l, refOf)
    ensures exists j :: 0 <= j < |hits| && hits[j].0 == l && x == refOf(hits[j].1)
  {
    var init := hits[..|hits| - 1];
    if x in RefsOf(init, l, refOf) {
      RefsOfMembers(init, l, refOf, x);
      var j :| 0 <= j < |init| && init[j].0 == l && x == refOf(init[j].1);
      assert hits[j] == init[j];
    } else {
      assert hits[|hits| - 1].0 == l && x == refOf(hits[|hits| - 1].1);
    }
  }

  /** The list of label `l` is non-empty and each of its entries is the
      reference of a column carrying `l`. */
  ghost predicate LabelRefs(m: map<string, seq<string>>, taskAt: int -> Option<string>, refOf: Pos -> string, l: string)
    requires l in m
  {
    |m[l]| > 0 && forall i :: 0 <= i < |m[l]| ==> RefCarries(m[l][i], taskAt, refOf, l)
  }

  /** `ref` is the reference of some column carrying `l`. */
  ghost predicate RefCarries(ref: string, taskAt: int -> Option<string>, refOf: Pos -> string, l: string) {
    exists c: Pos :: ref == refOf(c) && taskAt(c) == Some(l)
  }

  ghost predicate RefsOfLabels(m: map<string, seq<string>>, taskAt: int -> Option<string>, refOf: Pos -> string) {
    forall l :: l in m ==> LabelRefs(m, taskAt, refOf, l)
  }

  /** After sorting, every list is non-empty and each of its references is
      that of a column carrying the list's label in one of the ranges. */
  lemma {:induction false} GroupedRefs(taskAt: int -> Option<string>, ranges: seq<MergedRange>, refOf: Pos -> string)
    ensures RefsOfLabels(SortedRefs(Group(RangeHits(taskAt, ranges, |ranges|), refOf)), taskAt, refOf)
  {
    var m := SortedRefs(Group(RangeHits(taskAt, ranges, |ranges|), refOf));
    forall l | l in m ensures LabelRefs(m, taskAt, refOf, l) {
      GroupedLabel(taskAt, ranges, refOf, l);
    }
  }

  lemma {:induction false} GroupedLabel(taskAt: int -> Option<string>, ranges: seq<MergedRange>, refOf: Pos -> string, l: string)
    requires l in SortedRefs(Group(RangeHits(taskAt, ranges, |ranges|), refOf))
    ensures LabelRefs(SortedRefs(Group(RangeHits(taskAt, ranges, |ranges|), refOf)), taskAt, refOf, l)
  {
    var hits := RangeHits(taskAt, ranges, |ranges|);
    var m := SortedRefs(Group(hits, refOf));
    assert |m[l]| > 0 by {
      TestMappingLists(hits, refOf, l, 0);
    }
    forall i | 0 <= i < |m[l]| ensures RefCarries(m[l][i], taskAt, refOf, l) {
      GroupedRef(taskAt, ranges, refOf, l, i);
    }
    assert LabelRefs(m, taskAt, refOf, l);
  }

  lemma {:induction false} GroupedRef(taskAt: int -> Option<string>, ranges: seq<MergedRange>, refOf: Pos -> string, l: string, i: int)
    requires var m := SortedRefs(Group(RangeHits(taskAt, ranges, |ranges|), refOf)); l in m && 0 <= i < |m[l]|
    ensures var m := SortedRefs(Group(RangeHits(taskAt, ranges, |ranges|), refOf));
      RefCarries(m[l][i], taskAt, refOf, l)
  {
    var hits := RangeHits(taskAt, ranges, |ranges|);
    var x := SortedRefs(Group(hits, refOf))[l][i];
    TestMappingLists(hits, refOf, l, 0);
    assert x in multiset(RefsOf(hits, l, refOf));
    RefsOfMembers(hits, l, refOf, x);
    var j :| 0 <= j < |hits| && hits[j].0 == l && x == refOf(hits[j].1);
    RangeHitsColumns(taskAt, ranges, |ranges|, j);
  }

  /** Every list of `m` is non-empty and holds references of activity-row
      cells whose column carries the list's label. */
  ghost predicate LabelledRefs(m: map<string, seq<string>>, taskAt: int -> Option<string>, activityRow: int) {
    forall l :: l in m ==> LabelCells(m, taskAt, activityRow, l)
  }

  ghost predicate LabelCells(m: map<string, seq<string>>, taskAt: int -> Option<string>, activityRow: int, l: string)
    requires l in m
  {
    |m[l]| > 0 && forall i :: 0 <= i < |m[l]| ==> LabelCell(m[l][i], taskAt, activityRow, l)
  }

  /** `ref` names the activity-row cell of a column carrying label `l`. */
  ghost predicate LabelCell(ref: string, taskAt: int -> Option<string>, activityRow: int, l: string) {
    exists c: Pos :: ref == CellRef(c, activityRow) && taskAt(c) == Some(l)
  }

  /** A built mapping meets what the grade-cell lookup needs of it. */
  lemma {:induction false} TestMappingRefs(wb: Workbook, sheetName: string, header: string, activityRow: int)
    requires sheetName in wb
    ensures LabelledRefs(TestMapping(wb, sheetName, header, activityRow).value, RowTasks(SheetCell(wb[sheetName]), activityRow), activityRow)
  {
    var ws := wb[sheetName];
    var taskAt, ranges, refOf := RowTasks(SheetCell(ws), activityRow), TestHeaders(ws, header, ws.merged), RowRef(activityRow);
    var m := SortedRefs(Group(RangeHits(taskAt, ranges, |ranges|), refOf));
    RangeRefsLabelled(taskAt, ranges, activityRow);
    assert TestMapping(wb, sheetName, header, activityRow).value == m;
  }

  lemma {:induction false} RangeRefsLabelled(taskAt: int -> Option<string>, ranges: seq<MergedRange>, activityRow: int)
    ensures LabelledRefs(SortedRefs(Group(RangeHits(taskAt, ranges, |ranges|), RowRef(activityRow))), taskAt, activityRow)
  {
    var refOf := RowRef(activityRow);
    GroupedRefs(taskAt, ranges, refOf);
    RowRefsWitness(SortedRefs(Group(RangeHits(taskAt, ranges, |ranges|), refOf)), taskAt, activityRow, refOf);
  }

  /** A reference produced by `RowRef` is the cell reference of its column. */
  lemma {:induction false} RowRefsWitness(m: map<string, seq<string>>, taskAt: int -> Option<string>, activityRow: int, refOf: Pos -> string)
    requires refOf == RowRef(activityRow) && RefsOfLabels(m, taskAt, refOf)
    ensures LabelledRefs(m, taskAt, activityRow)
  {
    forall l | l in m ensures LabelCells(m, taskAt, activityRow, l) {
      assert LabelRefs(m, taskAt, refOf, l);
      assert |m[l]| > 0;
      forall i | 0 <= i < |m[l]| ensures LabelCell(m[l][i], taskAt, activityRow, l) {
        assert RefCarries(m[l][i], taskAt, refOf, l);
        var c: Pos :| m[l][i] == refOf(c) && taskAt(c) == Some(l);
        assert m[l][i] == CellRef(c, activityRow);
      }
    }
  }

  // ---------------------------------------------------------------------------
  // The closures

  /** The name cell of `row` holds the query, ignoring case. */
  predicate StudentAt(ws: Worksheet, studentCol: Pos, row: int, alumno: string) {
    var v := CellAt(ws, row, studentCol);
    Truthy(v) && ContainsIgnoreCase(Str(v), alumno)
  }

  /** The first row from `row` to `max_row` whose name cell holds the query. */
  function StudentRow(ws: Worksheet, studentCol: Pos, row: int, alumno: string): Option<int>
    decreases ws.maxRow + 1 - row
  {
    if row > ws.maxRow then None
    else if StudentAt(ws, studentCol, row, alumno) then Some(row)
    else StudentRow(ws, studentCol, row + 1, alumno)
  }

  /** A found row is the first matching row of the range. */
  lemma {:induction false} StudentRowFirst(ws: Worksheet, studentCol: Pos, row: int, alumno: string)
    ensures var r := StudentRow(ws, studentCol, row, alumno);
      r.Some? ==> row <= r.value <= ws.maxRow && StudentAt(ws, studentCol, r.value, alumno)
                  && forall x :: row <= x < r.value ==> !StudentAt(ws, studentCol, x, alumno)
    decreases ws.maxRow + 1 - row
  {
    if row <= ws.maxRow && !StudentAt(ws, studentCol, row, alumno) {
      StudentRowFirst(ws, studentCol, row + 1, alumno);
    }
  }

  /** Nothing is found exactly when no row of the range matches. */
  lemma {:induction false} StudentRowNone(ws: Worksheet, studentCol: Pos, row: int, alumno: string)
    ensures StudentRow(ws, studentCol, row, alumno).None? <==> forall x :: row <= x <= ws.maxRow ==> !StudentAt(ws, studentCol, x, alumno)
    decreases ws.maxRow + 1 - row
  {
    if row <= ws.maxRow && !StudentAt(ws, studentCol, row, alumno) {
      StudentRowNone(ws, studentCol, row + 1, alumno);
    }
  }

  /** `find_student_row`: the row loop with its early return. */
  method FindStudentRow(ws: Worksheet, studentCol: Pos, startRow: Pos, alumno: string) returns (r: Option<int>)
    ensures r == StudentRow(ws, studentCol, startRow, alumno)
  {
    var row: int := startRow;
    while row < ws.maxRow + 1
      invariant row >= startRow
      invariant StudentRow(ws, studentCol, startRow, alumno) == StudentRow(ws, studentCol, row, alumno)
      decreases ws.maxRow + 1 - row
    {
      var cellValue := CellAt(ws, row, studentCol);
      if Truthy(cellValue) && ContainsIgnoreCase(Str(cellValue), alumno) {
        return Some(row);
      }
      row := row + 1;
    }
    return None;
  }

  /** The only exception `get_grade_cell` can raise on a built mapping:
      `cell_refs[trimester_index]` with an index below `-len(cell_refs)`. */
  datatype LookupError = IndexError

  /** `get_grade_cell`: the reference chosen for the period index (the
      first one when there are not that many), its column letters, then the
      student's row; `None` for an unknown task or student. */
  function GradeCell(ws: Worksheet, mapping: map<string, seq<string>>, studentCol: Pos, startRow: Pos,
                     alumno: string, tarea: string, trimesterIndex: int): Result<Option<string>, LookupError>
  {
    if tarea !in mapping then Ok(None)
    else
      var cellRefs := mapping[tarea];
      match (if |cellRefs| > trimesterIndex then PyIndex(cellRefs, trimesterIndex) else PyIndex(cellRefs, 0))
      case None => Err(IndexError)
      case Some(selectedRef) =>
        var colLetters := Letters(selectedRef);
        match StudentRow(ws, studentCol, startRow, alumno)
        case None => Ok(None)
        case Some(rowAlumno) => if rowAlumno == 0 then Ok(None) else Ok(Some(colLetters + Decimal(rowAlumno)))
  }

  /** On a mapping whose lists are non-empty and hold references of row
      `activityRow`, a non-negative period index never fails: the result is
      the chosen reference's column with the student's row, and `None`
      exactly for an unknown task or student. */
  lemma {:induction false} GradeCellOf(ws: Worksheet, mapping: map<string, seq<string>>, activityRow: int, studentCol: Pos, startRow: Pos,
                    alumno: string, tarea: string, trimesterIndex: nat)
    requires forall l :: l in mapping ==> |mapping[l]| > 0
    requires forall l, i :: l in mapping && 0 <= i < |mapping[l]| ==> exists c: Pos :: mapping[l][i] == CellRef(c, activityRow)
    ensures var r := GradeCell(ws, mapping, studentCol, startRow, alumno, tarea, trimesterIndex);
      r.Ok? && (r.value.None? <==> tarea !in mapping || StudentRow(ws, studentCol, startRow, alumno).None?)
    ensures tarea in mapping && StudentRow(ws, studentCol, startRow, alumno).Some? ==>
      var refs := mapping[tarea];
      var chosen := if trimesterIndex < |refs| then refs[trimesterIndex] else refs[0];
      exists c: Pos :: chosen == CellRef(c, activityRow) &&
        GradeCell(ws, mapping, studentCol, startRow, alumno, tarea, trimesterIndex)
          == Ok(Some(ColumnLetter(c) + Decimal(StudentRow(ws, studentCol, startRow, alumno).value)))
  {
    StudentRowFirst(ws, studentCol, startRow, alumno);
    StudentRowNone(ws, studentCol, startRow, alumno);
    if tarea in mapping {
      var refs := mapping[tarea];
      var i := if trimesterIndex < |refs| then trimesterIndex else 0;
      var c: Pos :| refs[i] == CellRef(c, activityRow);
      LettersOfCellRef(c, activityRow);
    }
  }

  /** On a mapping built from the same sheet, the lookup never raises and
      finds nothing exactly for an unknown task or student. */
  lemma {:induction false} BuiltGradeCell(wb: Workbook, sheetName: string, header: string, activityRow: int, studentCol: Pos, startRow: Pos,
                       alumno: string, tarea: string, trimesterIndex: nat)
    requires sheetName in wb
    ensures var ws, m := wb[sheetName], TestMapping(wb, sheetName, header, activityRow).value;
      var r := GradeCell(ws, m, studentCol, startRow, alumno, tarea, trimesterIndex);
      r.Ok? && (r.value.None? <==> tarea !in m || StudentRow(ws, studentCol, startRow, alumno).None?)
  {
    var ws, m := wb[sheetName], TestMapping(wb, sheetName, header, activityRow).value;
    TestMappingRefs(wb, sheetName, header, activityRow);
    forall l | l in m ensures |m[l]| > 0 && forall i :: 0 <= i < |m[l]| ==> exists c: Pos :: m[l][i] == CellRef(c, activityRow) {
      assert LabelCells(m, RowTasks(SheetCell(ws), activityRow), activityRow, l);
      forall i | 0 <= i < |m[l]| ensures exists c: Pos :: m[l][i] == CellRef(c, activityRow) {
        assert LabelCell(m[l][i], RowTasks(SheetCell(ws), activityRow), activityRow, l);
      }
    }
    GradeCellOf(ws, m, activityRow, studentCol, startRow, alumno, tarea, trimesterIndex);
  }
}
