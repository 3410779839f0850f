# Grade reconciliation for the "EVALUACIÓN" sheet

A model of the evaluator core of canvas_excel_sheetevaluation. The tool takes
the grades of one Canvas assignment and writes them into a teacher's
evaluation sheet. The sheet is either an Excel workbook read with openpyxl or
a Google Sheets document read through the Sheets API.

The core has three parts:

- **The activity map.** Each period ("1er Trimestre", "2do Trimestre", ...) is
  a block of columns under a "RESULTADO APRENDIZAJE" header. The activity row
  (row 9) names the tasks, as "TAREA n" or "ACTIVIDAD n" in any case. The map
  gives, for each period, the column letter of every task. It is built
  - from the merged header ranges of a workbook (`mapping.py`,
    `cell_locator.py`);
  - from the value grid of the API, where a block runs from one header start
    to the next (`mapping.py`, `google_sheets_client.py`);
  - in an older variant that lists every occurrence of a task, with a
    student-row finder and a grade-cell lookup (`test_locator.py`).
- **The name matcher.** A name is normalised: accents, commas and capitals are
  removed, and Spanish stop words are dropped. Every student row then gets a
  score: the number of tokens it shares with the Canvas name. The first row
  with the highest score is accepted only under the decision rule: two shared
  tokens, or one shared token when both names are short (`matcher.py`).
- **The write engines.** They skip records with no name or no score. They look
  up the row of each remaining record, coerce its score with `float()`, and
  write it into the task's column. The Excel engine saves a cell-to-value plan.
  The Google Sheets engine makes one update call per cell. Both return a
  summary. `run_grade_processing` checks the grades, builds the map, finds the
  column of the chosen period and task, stamps it on every record and calls
  the engine (`processor.py`).

Modules follow the source:

| module | models |
|---|---|
| `Matcher` | `matcher.py` |
| `Mapping` | `mapping.py` |
| `CellLocator` | `cell_locator.py` |
| `GoogleSheetsClient` | `google_sheets_client.py` |
| `TestLocator` | `test_locator.py` |
| `Processor` | `processor.py` |

Shared pieces live in their own modules:

- `Layout`: the task pattern, the period names, the column scan and the block
  loop, which every mapper repeats.
- `Grid`: the header starts and blocks of a value grid.
- `Sheets`: cell values, worksheets and openpyxl column letters.
- `PyText`: the Python string operations the core relies on, such as `split`,
  `lower`, `str(int)` and indexing.
- `Sorting`: Python's stable `sorted`/`list.sort`.
- `Wrappers`: `Option` and `Result`.

Most loops of the source are `method`s with loop invariants. Each one is
proved equal (`ensures r == F(...)`) to a specification function `F`. The
properties the source promises are then proved as lemmas about `F`.

## Model

| member | source | states |
|---|---|---|
| Matcher.NormalizeName | evaluator/matcher.py:11-12 | a value that is not a string normalises to the empty string |
| Matcher.NormalizeTextShape | evaluator/matcher.py:18-29 | splitting the normalised name gives the folded words minus the stop words; the result has no comma, no combining mark and no capital; none of its words is a stop word |
| Matcher.NormalizeIdempotent | evaluator/matcher.py:6-29 | normalising a normalised name returns it unchanged |
| Matcher.NormalizeNameIdempotent | evaluator/matcher.py:6-29 | the same on cell values: `normalize_name(normalize_name(x)) == normalize_name(x)` |
| Matcher.NfdMembers | evaluator/matcher.py:18 | every character of the NFD form comes from decomposing a character of the input |
| Matcher.StripMarksMembers | evaluator/matcher.py:19 | removing combining marks keeps only characters of the input that are not combining marks |
| Matcher.RemoveCommasMembers | evaluator/matcher.py:22 | `.replace(',', '')` keeps only characters of the input other than commas |
| Matcher.DropStopWordsMembers | evaluator/matcher.py:15-26 | the words kept are words of the input, and none of them is in the stop-word set |
| Matcher.DecompositionShape | evaluator/matcher.py:18 | the decomposition table maps a letter to an ASCII base letter followed by a combining mark |
| Matcher.OverlapBounds | evaluator/matcher.py:37-49 | the count of common words is at most the number of distinct tokens on either side |
| Matcher.ScanUpTo | evaluator/matcher.py:51-53 | a kept best row is one of the candidates scanned so far |
| Matcher.ScanFindsFirstBest | evaluator/matcher.py:41-53 | the scan keeps nothing (score -1) exactly when every cell was skipped; otherwise it keeps the FIRST candidate with the highest score, and its score |
| Matcher.FirstBestUnique | evaluator/matcher.py:51-53 | at most one candidate is the first with the highest score |
| Matcher.ScanOutcome | evaluator/matcher.py:41-53 | over the whole range, a candidate is the first with the highest score exactly when the scan keeps it |
| Matcher.ExcelCandidates | evaluator/matcher.py:43-44 | the candidates are rows `start_row..end_row` of the column, one per row, in order |
| Matcher.ScanExcelRows | evaluator/matcher.py:41-53 | the row loop ends with the best row and score of the scan specification |
| Matcher.FindMatchInExcel | evaluator/matcher.py:32-64 | the method returns what the specification `ExcelMatch` gives, `InvalidCoordinate` included |
| Matcher.ExcelFailsOnlyOnEmptyRange | evaluator/matcher.py:57-58 | the lookup raises (reading `sheet["CNone"]`) exactly when the Canvas name has one or two tokens and every cell of the range is empty |
| Matcher.ExcelMatchIsFirstBest | evaluator/matcher.py:37-64 | a returned row lies in the range, has a non-empty cell and is the first with the highest score; an empty Canvas name returns nothing |
| Matcher.ExcelAcceptance | evaluator/matcher.py:55-64 | the first best row is returned exactly when the decision rule accepts it: at least two common words, or both names short and at least one common word; column C of that row is counted |
| Matcher.GsheetCandidates | evaluator/matcher.py:80-81 | the candidates are the entries of `sheet_data[start_row-1:end_row]`, numbered from `start_row` |
| Matcher.ScanGsheetRows | evaluator/matcher.py:77-91 | the loop ends with the best row, score and name of the scan specification |
| Matcher.FindMatchInGsheet | evaluator/matcher.py:67-100 | the method returns what the specification `GsheetMatch` gives |
| Matcher.GsheetMatchIsFirstBest | evaluator/matcher.py:80-98 | a returned row lies in `start_row..end_row` and inside the data, has a non-empty name at `col_idx`, and is the first row with the highest score |
| Matcher.SliceRow | evaluator/matcher.py:80-81 | entry `i` of the slice is sheet row `start_row + i` |
| Matcher.GsheetAcceptance | evaluator/matcher.py:93-100 | the first best row is returned exactly when the decision rule accepts it, counting the words of the remembered best name |
| PyText.Split | evaluator/matcher.py:25 | every piece of `str.split()` is a non-empty token without whitespace |
| PyText.SplitHeadTail | evaluator/matcher.py:25 | `split()` skips the leading blanks, takes one word and splits the rest |
| PyText.SplitJoin | evaluator/matcher.py:25-29 | splitting `" ".join(tokens)` gives the tokens back |
| PyText.LowerStr | evaluator/matcher.py:22 | `lower()` maps each character on its own and keeps the length |
| PyText.Decimal | evaluator/processor.py:61 | `str(row)` is non-empty and starts with '-' exactly for a negative number |
| PyText.DecimalInjective | evaluator/processor.py:61 | distinct rows print differently, so distinct rows give distinct cells |
| PyText.PyIndex | evaluator/test_locator.py:71 | `s[i]` with Python's negative indices; `None` exactly where Python raises IndexError |
| PyText.SliceBound | evaluator/matcher.py:80 | a slice bound is clamped to the length and unchanged inside it |
| Sheets.StrOrEmpty | evaluator/mapping.py:50 | `str(v or '')` is empty for a falsy value and `str(v)` otherwise |
| Sheets.ColumnLetter | evaluator/mapping.py:24 | `get_column_letter` gives a non-empty upper-case column name |
| Sheets.ColumnRoundTrip | evaluator/test_locator.py:43-50 | `column_index_from_string(get_column_letter(n)) == n` |
| Sheets.ColumnLetterInjective | evaluator/mapping.py:24 | distinct columns get distinct letters |
| Sheets.ColumnLetterExamples | evaluator/cell_locator.py:56 | 1 is "A", 26 is "Z", 27 is "AA", 52 is "AZ", 703 is "AAA" |
| Sheets.LettersOfCellRef | evaluator/test_locator.py:74 | the letters of a reference "D9" are its column name |
| Sorting.SortBySorted | evaluator/mapping.py:48-52 | `sorted(..., key=...)` is ordered by key |
| Sorting.SortByPermutes | evaluator/mapping.py:48-52 | the result holds the same elements, each as often |
| Sorting.SortByStable | evaluator/mapping.py:48-52 | elements with equal keys keep their order |
| Sorting.IncreasingUnique | evaluator/mapping.py:71 | two strictly increasing lists with the same members are equal |
| Layout.TaskLabelShape | evaluator/mapping.py:23 | a task name is "TAREA " followed by one or more digits |
| Layout.TaskLabelFound | evaluator/mapping.py:21-22 | a cell gives a task exactly when `pattern.search` matches somewhere in it |
| Layout.TaskLabelLeftmost | evaluator/mapping.py:21-23 | the task name comes from the leftmost match |
| Layout.TaskLabelOfKeyword | evaluator/mapping.py:21-23 | "TAREA" or "ACTIVIDAD" in any case, then optional whitespace and digits, names "TAREA" plus those digits as written |
| Layout.DigitsEndFacts | evaluator/mapping.py:9 | `\d+` takes the whole run of ASCII digits and stops at the first character that is not an ASCII digit |
| Layout.MatchAtDigits | evaluator/mapping.py:23 | group 2 is a non-empty run of digits |
| Layout.TaskLabelEmpty | evaluator/mapping.py:20 | an empty cell text names no task |
| Layout.PeriodNameExamples | evaluator/mapping.py:28 | blocks 0 and 2 are "1er Trimestre" and "3er Trimestre"; block 3 is "4to Trimestre" |
| Layout.PeriodNameInjective | evaluator/mapping.py:28 | distinct blocks get distinct period names |
| Layout.NamedPeriodNotNumbered | evaluator/mapping.py:28 | a listed label never equals a generated "{i+1}to Trimestre" name |
| Layout.ScanColumns | evaluator/mapping.py:17-25 | the column loop builds the task map of its specification |
| Layout.BlockTasksKeys | evaluator/mapping.py:18-25 | a task is in a block's map exactly when some column of the block carries its name |
| Layout.BlockTasksRightmost | evaluator/mapping.py:25 | a task's letter is that of the RIGHTMOST column of the block carrying it; a later column overwrites an earlier one |
| Layout.CollectPeriods | evaluator/mapping.py:13-32 | the block loop yields the periods of its specification |
| Layout.PeriodsFromBlocks | evaluator/mapping.py:27-32 | every period is the non-empty task map of one block, under that block's name |
| Layout.PeriodsComplete | evaluator/mapping.py:27-32 | every block with a task contributes its period |
| Layout.PeriodsInBlockOrder | evaluator/mapping.py:13-32 | periods keep the order of their blocks |
| Layout.PeriodNamesDistinct | evaluator/mapping.py:28 | no two periods of a map share a name |
| Layout.PeriodTaskColumn | evaluator/mapping.py:18-25 | every task of a period sits in its block, in the rightmost column of the block that names it |
| Layout.AssembleFails | evaluator/mapping.py:34-35 | the map fails with "no activities" exactly when no block has a task |
| Layout.BlockTasksShift | evaluator/google_sheets_client.py:88-95 | shifting the scanned columns one way and the letter offset the other way builds the same tasks |
| Layout.PeriodsShift | evaluator/google_sheets_client.py:85-102 | the same for the periods of shifted blocks |
| Layout.AssembleShift | evaluator/mapping.py:34-35 | under a shift, the first scan fails exactly when the second finds no period, and otherwise yields its periods |
| Grid.HeaderColumnsMembers | evaluator/mapping.py:65-71 | the header starts are exactly the columns holding the header text in the four rows above the activity row, each once, in increasing order |
| Grid.HeaderColumnsNeedRows | evaluator/mapping.py:66-67 | a header start needs a row above the activity row |
| Grid.HeaderColumnsBounds | evaluator/mapping.py:68 | header starts are columns of some row |
| Grid.FindHeaderStarts | evaluator/mapping.py:65-71 | the `header_starts` loop with its sort gives the specification's header starts |
| Grid.SortedHeaderStarts | evaluator/mapping.py:69-71 | sorting the distinct columns found gives the header starts |
| Grid.GridBlocks | evaluator/mapping.py:77-79 | one block per header start, each ending before the next start or at the activity row's last column |
| Grid.GridRanges | evaluator/mapping.py:76-79 | the `header_ranges` loop builds those blocks |
| Grid.GridBlocksDisjoint | evaluator/mapping.py:77-79 | no column lies in two blocks |
| Grid.GridBlocksCover | evaluator/mapping.py:77-79 | every column from the first start to the end of the activity row lies in some block |
| Mapping.BuildMapLogic | evaluator/mapping.py:8-38 | `_build_map_logic` returns the assembled map, or the "no activities" error |
| Mapping.AsBlocks | evaluator/mapping.py:14-15 | a merged range is read as the block from its `min_col` to its `max_col` |
| Mapping.BuildMapFromExcel | evaluator/mapping.py:41-57 | the method returns the workbook map of the specification `ExcelLayout` |
| Mapping.HeaderRangesMembers | evaluator/mapping.py:47-52 | the header ranges are exactly the merged ranges whose top-left cell holds the header text, ordered by first column |
| Mapping.HeaderRangesOrder | evaluator/mapping.py:48-52 | every header range appears as often as in the sheet; ranges starting in the same column keep the sheet's order |
| Mapping.ExcelLayoutErrors | evaluator/mapping.py:42-55 | a missing sheet, and a sheet with no header range, are exactly the two errors raised before any column is scanned |
| Mapping.ExcelTaskColumn | evaluator/mapping.py:18-57 | every task of a workbook period sits in a column of a header range whose activity-row cell names it, the rightmost such column |
| Mapping.BuildMapFromGsheetData | evaluator/mapping.py:60-92 | the method returns the grid map of the specification `GsheetLayout` |
| Mapping.GsheetLayoutErrors | evaluator/mapping.py:61-74 | too few rows, then a missing header, are exactly the errors raised before any column is scanned |
| Mapping.GsheetTaskColumn | evaluator/mapping.py:76-92 | every task of a grid period sits in that period's block, in a column whose activity-row value names it |
| Mapping.GridCellAt | evaluator/mapping.py:81-90 | the task read through `MockSheet.cell` at a 1-based column is that of the grid value one column to the left, and none past the row's end |
| CellLocator.BuildActivityMap | evaluator/cell_locator.py:7-70 | `build_activity_map` builds the same map, with the same errors, as the workbook path of `mapping.py` |
| GoogleSheetsClient.BuildActivityMapFromApiData | evaluator/google_sheets_client.py:59-104 | the method returns the map of the specification `ApiLayout` |
| GoogleSheetsClient.ApiLayoutOk | evaluator/google_sheets_client.py:76-104 | with the activity row and a header start, the map is the periods of the 0-based blocks, possibly none |
| GoogleSheetsClient.ApiAgreesWithMapping | evaluator/google_sheets_client.py:59-104 | the API client and `build_map_from_gsheet_data` fail for the same reasons and agree on every non-empty map; where no block has a task, the client returns `[]` and the mapping module raises |
| GoogleSheetsClient.ApiTasksAgree | evaluator/google_sheets_client.py:88-95 | past the first column, the client reads one column to the left what the mapping module reads through its out-of-range-safe cell |
| GoogleSheetsClient.GridBlocksShifted | evaluator/google_sheets_client.py:76-79 | the 0-based blocks are the 1-based blocks of `mapping.py` moved one column left |
| TestLocator.TestHeadersAgree | evaluator/test_locator.py:26-30 | for a non-empty header text, the truthiness test changes nothing: the ranges kept are those of `mapping.py`, in the sheet's order |
| TestLocator.GroupIsFilter | evaluator/test_locator.py:33-46 | the dictionary holds exactly the labels that occur; each label's list is the references of its occurrences, in scan order |
| TestLocator.CollectRefs | evaluator/test_locator.py:33-46 | the collecting loops build that dictionary |
| TestLocator.GroupStep | evaluator/test_locator.py:44-46 | one more labelled column appends its reference to its label's list, creating the list if needed |
| TestLocator.RefColumnOfCellRef | evaluator/test_locator.py:50 | the sort key of a reference is the column it names |
| TestLocator.SortRefLists | evaluator/test_locator.py:49-50 | each list is sorted in place |
| TestLocator.TestMappingLists | evaluator/test_locator.py:33-50 | each final list is non-empty, sorted by column, a permutation of the label's occurrences, and keeps scan order within a column |
| TestLocator.BuildActivityMapping | evaluator/test_locator.py:21-50 | the method returns the mapping of its specification |
| TestLocator.RangeHitsColumns | evaluator/test_locator.py:34-46 | every occurrence is a labelled column inside one of the scanned ranges |
| TestLocator.GroupedRefs | evaluator/test_locator.py:33-50 | after sorting, every list is non-empty and each reference is that of a column carrying the list's label |
| TestLocator.TestMappingRefs | evaluator/test_locator.py:33-50 | every reference of a built mapping is the cell of the activity row in a column carrying its label |
| TestLocator.StudentRowFirst | evaluator/test_locator.py:53-60 | a found row lies in `start_row..max_row`, its name cell contains the query ignoring case, and no earlier row does |
| TestLocator.StudentRowNone | evaluator/test_locator.py:55-62 | nothing is found exactly when no row of the range matches |
| TestLocator.FindStudentRow | evaluator/test_locator.py:53-62 | the loop with its early return gives the specification's row |
| TestLocator.GradeCellOf | evaluator/test_locator.py:66-78 | on a well-formed mapping and a non-negative period index, the lookup never raises; it returns the chosen reference's column with the student's row, falling back to the first reference, and `None` exactly for an unknown task or student |
| TestLocator.BuiltGradeCell | evaluator/test_locator.py:66-80 | on a mapping built from the same sheet, the lookup never raises and returns `None` exactly for an unknown task or student |
| Processor.ParseFloatOfDecimal | evaluator/processor.py:59 | `float(str(n))` is `n` |
| Processor.ParseFloatShape | evaluator/processor.py:59 | whatever `float()` accepts holds, after stripping, only digits, at most one '.', and a sign only in front |
| Processor.ParseFloatExamples | evaluator/processor.py:59-63 | "abc", "" and "." raise ValueError; "7" is 7 |
| Processor.WriteGradesToExcel | evaluator/processor.py:43-90 | the record loop and the count give the specification `ExcelEngine`; a raising lookup ends the run |
| Processor.ExcelStepsAbort | evaluator/processor.py:55 | a lookup that raises ends the run with its error, whatever follows |
| Processor.WriteGradesToGsheet | evaluator/processor.py:102-135 | the record loop gives the specification `GsheetEngine` |
| Processor.LastWritesDomain | evaluator/processor.py:62 | the saved cells are exactly the cells written |
| Processor.LastWritesIsLast | evaluator/processor.py:62 | each saved cell holds the value of its last write |
| Processor.LastWritesCount | evaluator/processor.py:81 | `len(updates_to_perform)` is at most the number of writes, and equal exactly when no cell is written twice |
| Processor.CallsOfWrites | evaluator/processor.py:118-119 | one update call per write, to `EVALUACIÓN!{cell}`, in order |
| Processor.EnginesAgree | evaluator/processor.py:48-135 | on the same rows, the engines reconcile alike: same processed count and names not found; the Excel plan holds the last write of each cell Google Sheets updates; the Excel `written` count is at most the Google Sheets one, equal exactly when no cell is updated twice |
| Processor.ExcelStepsOutcome | evaluator/processor.py:48-67 | the Excel engine fails exactly when a lookup raises; otherwise it takes the steps of the Google Sheets loop |
| Processor.GsheetSkipsIgnored | evaluator/processor.py:109-110 | records with a falsy name or a missing score change nothing but the processed count |
| Processor.ExcelSkipsIgnored | evaluator/processor.py:52-53 | the same for the Excel engine: the same failure, cells and names not found without them |
| Processor.NotFoundMembers | evaluator/processor.py:66-125 | a name is reported not found exactly when it belongs to a looked-up record for which the matcher finds no row, or row 0 |
| Processor.GsheetAppend | evaluator/processor.py:105-126 | one more record: a skipped record or a score that does not coerce changes only the count; an unmatched name is appended; a planned cell adds one update call, even for a cell already updated |
| Processor.ExcelAppend | evaluator/processor.py:48-67 | the same for the Excel engine, where a planned cell replaces that cell's earlier value, and a raising lookup fails the run |
| Processor.FirstPeriodNamedIsFirst | evaluator/processor.py:168 | `next(...)` finds the first period with that name, and nothing exactly when no period has it |
| Processor.StampTargetColumn | evaluator/processor.py:176-177 | every record gets the column; nothing else changes |
| Processor.PrepareRecords | evaluator/processor.py:153-177 | the checks and the stamping give the specification `Resolve` |
| Processor.ResolveOutcome | evaluator/processor.py:153-177 | each failure happens exactly under its condition (no grades, no map, no column); a success keeps every name and score and stamps the column on every record |
| Processor.TargetColumnEntry | evaluator/processor.py:168-169 | a column found is the task's entry in a period of that name |
| Processor.ExcelTarget | evaluator/processor.py:161-173 | in a workbook, a column found is the letter of a column whose activity-row cell names the task, so it is never empty |
| Processor.GsheetTarget | evaluator/processor.py:164-173 | the same for a Google Sheets grid |
| Processor.RunAsWrittenNeverWritesExcel | evaluator/processor.py:180-181 | as written, no run to a workbook succeeds: one that passes the checks always ends in the TypeError of the engine call |
| Processor.ExcelRunDiffers | evaluator/processor.py:180-183 | where no lookup raises, the intended workbook run succeeds while the run as written ends in the TypeError |
| Processor.WritesInColumn | evaluator/processor.py:60-118 | records that all carry one column plan writes only to cells of that column |
| Processor.ResolvedColumn | evaluator/processor.py:168-177 | a run that passes the checks stamps one non-empty column, the map's column for the task, on every record |
| Processor.RunWritesExcel | evaluator/processor.py:138-181 | as intended, a workbook run that passes the checks fails exactly when a lookup raises; otherwise it reports every record and saves only cells of the task's column |
| Processor.StampedRaises | evaluator/processor.py:176-177 | stamping a column does not change which lookups raise |
| Processor.RunWritesSheet | evaluator/processor.py:138-183 | when every update call returns, a Google Sheets run that passes the checks succeeds, reports every record and sends every update to a cell of the task's column |
| Processor.RunGradeProcessing | evaluator/processor.py:138-183 | the checks, the map of the destination, the stamping and the engine give the specification `Run`, with the Excel engine called as intended |

## Left out

- Files, the network and the UI are not modelled: opening workbooks, saving them, the backup copy, `canvas_grades_to_write.json`, and the Sheets API reads and update calls. The grades, the workbook and the value grid are inputs. The Excel engine returns the plan of cells it would save. The Google Sheets engine returns the log of update calls. `backup_path` is not part of the summary.
- Logging, and the `[DEBUG]` prints of `find_student_row`, are not modelled.
- Cell values are `None`, text or integers. Floats, dates and formulas are left out. Scores are integers, exact decimals or text.
- Matcher.Nfd: the NFD table covers the accented letters of Spanish and Catalan rosters (one base letter and one mark), not the whole Unicode database. `lower()` and the IGNORECASE of the task pattern fold ASCII letters only.
- Processor.ParseFloat: `float()` is modelled for signed decimal literals with surrounding whitespace. Exponents, "inf", "nan" and underscores are left out. Values are exact decimals, without binary rounding.
- Layout.DigitsEndFacts: `\d` is modelled as the ASCII digits 0-9. Python's `\d` also matches the other Unicode decimal digits, so a cell such as "TAREA ٣" names a task in the source and none in the model.
- Matcher.IsCombining: the combining marks stripped are U+0300..U+036F. `unicodedata.combining` is also non-zero for other marks already in the input, such as U+1DC0..U+1DFF, U+20D0..U+20FF and U+FE20..U+FE2F. The model keeps those.
- PyText.Lower: `lower()` folds ASCII capitals only. Non-ASCII capitals such as "Ó" and "Á" stay as they are. So `test_locator.py`'s default header "...EVALUACIÓN PRÁCTICOS" does not match a cell written "evaluación prácticos" in the model, where the source matches it.
- Sheets.CellAt: a row below 1 reads as an empty cell. openpyxl raises ValueError for `sheet[f"C{row}"]` with a row of 0 or less (`matcher.py:44`, `matcher.py:58`) and for `sheet.cell(row=activity_row)` with an activity row below 1 (`mapping.py:19`). `Matcher.ExcelMatch` and `Mapping.ExcelLayout` accept any start or activity row, so that error is not modelled. The callers' defaults (rows 10..44, activity row 9) never reach it.
- Processor.RunWritesSheet: the update calls are assumed to return. In the source, `clients.update_gsheet_values` has no handler and `processor.py:121` catches only ValueError and TypeError. So an update that raises (an HTTP or credentials error) aborts the run, after the earlier cells are written and with no summary. The model does not capture that abort.
- Sheets.ColumnLetter: openpyxl's limit of 18278 columns is not modelled. The letters are bijective base 26 for every column.
- Matcher.GsheetMatchIsFirstBest: proved for `start_row >= 1` and `end_row >= 0`, the values the callers pass. Other slices behave as Python's clamped slices, but the lemma does not cover them.
- The iteration order of `merged_cells.ranges` is an input: the worksheet holds its merged ranges as a sequence.
- TestLocator.GradeCellOf: proved for a non-negative period index. A negative index is modelled through Python's negative indexing, and its `IndexError` is a result, but the lemma does not speak about it.
- TestLocator.FindStudentRow: `start_student_row` is a positive row. openpyxl's error for a row below 1 is not modelled.
- Dictionary insertion order is not modelled: a task map is a `map`, and the Excel plan is a `map` from cell to value.
- Both engines read the destination again (`processor.py:40-41`, `processor.py:100`). The model gives them the same workbook or grid the map was built from.
- The write engines take the matcher as a parameter. `ExcelMatcher` and `GsheetMatcher` are the matchers `processor.py` passes, with their default columns and rows.
- The records are stamped as values: the in-place update of the loaded dictionaries is modelled as a new sequence.
- `evaluator/canvas_client.py`, `evaluator/clients.py`, `evaluator/gui.py`, `evaluator/canvas_gui.py`, `evaluator/test_locator2.py` and the command-line scripts are not part of this model. The Tk dialog of `test_locator.py` is not part of it either.

## Findings

| source | as written | input that shows it | evidently intended | confidence | as-written member | corrected member |
|---|---|---|---|---|---|---|
| evaluator/processor.py:181 | `_write_grades_to_excel(dest_config['path'], trimester_map, grades_to_write)` passes three arguments to a function of two parameters (`processor.py:20`), so the call raises TypeError | any Excel destination whose grades, map and column pass the checks of lines 153-173 | call the Excel engine with the path and the stamped records, as the Google Sheets branch does with its own engine | not executed | Processor.ExcelRunDiffers | Processor.RunWritesExcel |
