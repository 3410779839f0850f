/** The spreadsheet surfaces the engine reads: workbook cells with merged
    ranges (openpyxl), plain value grids (the Google Sheets API), and the
    bijective base-26 column names of `openpyxl.utils`. */
module Sheets {
  import opened Wrappers
  import opened PyText

  /** A cell value: empty (`None`), text, or an integer. */
  datatype Value = Blank | Text(s: string) | Number(n: int)

  /** Python truthiness of a cell value (`if cell_value:`). */
  predicate Truthy(v: Value) {
    match v
    case Blank => false
    case Text(s) => s != ""
    case Number(n) => n != 0
  }

  /** `str(v)`. */
  function Str(v: Value): string {
    match v
    case Blank => "None"
    case Text(s) => s
    case Number(n) => Decimal(n)
  }

  /** `str(v or '')`: a falsy value reads as the empty string. */
  function StrOrEmpty(v: Value): (r: string)
    ensures !Truthy(v) ==> r == ""
    ensures Truthy(v) ==> r == Str(v)
  {
    if Truthy(v) then Str(v) else ""
  }

  /** Row and column numbers in a workbook start at 1. */
  type Pos = n: int | n >= 1 witness 1

  /** A merged range as the engine uses it: its top-left corner and last column. */
  datatype MergedRange = MergedRange(minRow: Pos, minCol: Pos, maxCol: int)

  /** A worksheet: the cells that hold a value, keyed by (row, column), the
      merged ranges in openpyxl's iteration order, and `max_row`. */
  datatype Worksheet = Worksheet(cells: map<(int, int), Value>, merged: seq<MergedRange>, maxRow: int)

  /** `ws.cell(row, column).value`: cells never written read as `None`. */
  function CellAt(ws: Worksheet, row: int, col: int): Value {
    if (row, col) in ws.cells then ws.cells[(row, col)] else Blank
  }

  /** Sheets by name. */
  type Workbook = map<string, Worksheet>

  function LetterOf(d: int): (c: char)
    requires 0 <= d < 26
    ensures IsAsciiUpper(c)
  {
    ('A' as int + d) as char
  }

  predicate IsColumnName(s: string) {
    |s| > 0 && forall i :: 0 <= i < |s| ==> IsAsciiUpper(s[i])
  }

  /** `get_column_letter(n)`: bijective base 26, 1 -> "A", 26 -> "Z", 27 -> "AA". */
  function ColumnLetter(n: Pos): (r: string)
    ensures IsColumnName(r)
    decreases n
  {
    if n <= 26 then [LetterOf(n - 1)]
    else ColumnLetter((n - 1) / 26) + [LetterOf((n - 1) % 26)]
  }

  /** `column_index_from_string(s)`, the inverse of `ColumnLetter`. */
  function ColumnIndex(s: string): int
    requires IsColumnName(s) || s == []
  {
    if s == [] then 0
    else ColumnIndex(s[..|s| - 1]) * 26 + (s[|s| - 1] as int - 'A' as int + 1)
  }

  /** Converting a column number to letters and back gives the number. */
  lemma {:induction false} ColumnRoundTrip(n: Pos)
    ensures ColumnIndex(ColumnLetter(n)) == n
  {
    if n > 26 {
      var s := ColumnLetter(n);
      assert s[..|s| - 1] == ColumnLetter((n - 1) / 26);
      ColumnRoundTrip((n - 1) / 26);
    }
  }

  lemma {:induction false} ColumnLetterInjective(a: Pos, b: Pos)
    requires ColumnLetter(a) == ColumnLetter(b)
    ensures a == b
  {
    ColumnRoundTrip(a);
    ColumnRoundTrip(b);
  }

  lemma {:induction false} ColumnLetterExamples()
    ensures ColumnLetter(1) == "A" && ColumnLetter(26) == "Z"
    ensures ColumnLetter(27) == "AA" && ColumnLetter(52) == "AZ" && ColumnLetter(703) == "AAA"
  {
  }

  /** A cell reference such as "D9": column letters followed by `str(row)`. */
  function CellRef(col: Pos, row: int): string {
    ColumnLetter(col) + Decimal(row)
  }

  lemma {:induction false} LettersOfColumnName(s: string)
    requires IsColumnName(s) || s == []
    ensures Letters(s) == s
  {
    if s != [] {
      LettersOfColumnName(s[1..]);
    }
  }

  lemma {:induction false} LettersOfNumber(s: string)
    requires forall i :: 0 <= i < |s| ==> IsDigit(s[i]) || s[i] == '-'
    ensures Letters(s) == []
  {
    if s != [] {
      LettersOfNumber(s[1..]);
    }
  }

  lemma {:induction false} LettersOfConcat(a: string, b: string)
    ensures Letters(a + b) == Letters(a) + Letters(b)
  {
    if a != [] {
      assert (a + b)[1..] == a[1..] + b;
      LettersOfConcat(a[1..], b);
    } else {
      assert a + b == b;
    }
  }

  /** The letters of a cell reference are its column name. */
  lemma {:induction false} LettersOfCellRef(col: Pos, row: int)
    ensures Letters(CellRef(col, row)) == ColumnLetter(col)
  {
    LettersOfConcat(ColumnLetter(col), Decimal(row));
    LettersOfColumnName(ColumnLetter(col));
    var d := Decimal(row);
    if row < 0 {
      assert d == "-" + Natural(-row);
    }
    LettersOfNumber(d);
  }
}
