/** `evaluator/processor.py`: the reconciliation of the grades to write with
    the student rows of the sheet, for both write engines, and the choice of
    the target column. The sheet is read through the matcher; files,
    backups and API calls are not modelled. The Excel engine returns the
    cell-to-value plan it would save, and the Google Sheets engine the log
    of the update calls it would make. */
module Processor {
  import opened Wrappers
  import opened PyText
  import opened Sheets
  import opened Matcher
  import opened Layout
  import Mapping
  import Grid

  // ---------------------------------------------------------------------------
  // Records and scores

  /** A number as a decimal literal writes it: `mantissa` times ten to the
      power `-scale` ("8.50" is `Fixed(850, 2)`). */
  datatype Fixed = Fixed(mantissa: int, scale: nat)

  /** A score as loaded from the grades file. A missing or null score is
      `None` in the record (what `pd.isna` reports). */
  datatype Score = Numeric(x: Fixed) | Textual(s: string)

  /** A grade to write: `name`, `score` and the stamped `target_col`. */
  datatype Record = Record(name: Value, score: Option<Score>, targetCol: string)

  /** The record is looked up: its name is truthy and its score present. */
  predicate Considered(rec: Record) {
    Truthy(rec.name) && rec.score.Some?
  }

  /** `s.lstrip()` for whitespace. */
  function TrimStart(s: string): string {
    if s != [] && IsSpace(s[0]) then TrimStart(s[1..]) else s
  }

  /** `s.rstrip()` for whitespace. */
  function TrimEnd(s: string): string {
    if s != [] && IsSpace(s[|s| - 1]) then TrimEnd(s[..|s| - 1]) else s
  }

  /** `s.strip()`, which `float()` applies to a string first. */
  function Strip(s: string): string {
    TrimEnd(TrimStart(s))
  }

  predicate AllDigits(s: string) {
    forall i :: 0 <= i < |s| ==> IsDigit(s[i])
  }

  /** The position of the first '.' of `s`, or `|s|` when there is none. */
  function DotIndex(s: string): (k: nat)
    ensures k <= |s|
  {
    if s == [] || s[0] == '.' then 0 else 1 + DotIndex(s[1..])
  }

  /** An unsigned decimal literal: digits with at most one '.', and at
      least one digit ("12", "8.5", ".5", "5."). */
  function Unsigned(s: string): Option<Fixed> {
    var k := DotIndex(s);
    var whole, frac := s[..k], if k < |s| then s[k + 1..] else [];
    if AllDigits(whole) && AllDigits(frac) && |whole| + |frac| > 0
    then Some(Fixed(DigitsValue(whole + frac), |frac|))
    else None
  }

  /** `float(s)` for a string: surrounding whitespace, then an optional
      sign and an unsigned decimal literal; `None` where it raises ValueError. */
  function ParseFloat(s: string): Option<Fixed> {
    Signed(Strip(s))
  }

  /** An optional sign before an unsigned literal. */
  function Signed(t: string): Option<Fixed> {
    if |t| > 0 && t[0] == '-' then Negated(Unsigned(t[1..]))
    else if |t| > 0 && t[0] == '+' then Unsigned(t[1..])
    else Unsigned(t)
  }

  function Negated(x: Option<Fixed>): Option<Fixed> {
    match x
    case None => None
    case Some(f) => Some(Fixed(-f.mantissa, f.scale))
  }

  /** `float(score)`: a number is kept, a string is parsed. */
  function Coerce(score: Score): Option<Fixed> {
    match score
    case Numeric(x) => Some(x)
    case Textual(s) => ParseFloat(s)
  }

  /** `str(n)` of an integer reads back as that number. */
  lemma {:induction false} ParseFloatOfDecimal(n: int)
    ensures ParseFloat(Decimal(n)) == Some(Fixed(n, 0))
  {
    var m: nat := if n < 0 then -n else n;
    var digits := Natural(m);
    UnsignedOfDigits(digits);
    NaturalRoundTrip(m);
    if n < 0 {
      ParseFloatNegative(digits, m);
    } else {
      ParseFloatPlain(digits, m);
    }
  }

  lemma {:induction false} ParseFloatNegative(digits: string, v: nat)
    requires |digits| > 0 && IsDigit(digits[|digits| - 1]) && Unsigned(digits) == Some(Fixed(v, 0))
    ensures ParseFloat("-" + digits) == Some(Fixed(-(v as int), 0))
  {
    var d := "-" + digits;
    DigitNotSpace(d[|d| - 1]);
    DigitNotSpace(d[0]);
    assert Strip(d) == d;
    assert d[1..] == digits;
  }

  lemma {:induction false} ParseFloatPlain(digits: string, v: nat)
    requires |digits| > 0 && IsDigit(digits[0]) && IsDigit(digits[|digits| - 1]) && Unsigned(digits) == Some(Fixed(v, 0))
    ensures ParseFloat(digits) == Some(Fixed(v, 0))
  {
    DigitNotSpace(digits[|digits| - 1]);
    DigitNotSpace(digits[0]);
    assert Strip(digits) == digits;
  }

  lemma {:induction false} DigitNotSpace(c: char)
    requires IsDigit(c) || c == '-'
    ensures !IsSpace(c)
  {
  }

  lemma {:induction false} UnsignedOfDigits(digits: string)
    requires |digits| > 0 && AllDigits(digits)
    ensures Unsigned(digits) == Some(Fixed(DigitsValue(digits), 0))
  {
    NoDotInDigits(digits);
    assert digits[..|digits|] == digits;
    assert digits + [] == digits;
  }

  lemma {:induction false} NoDotInDigits(s: string)
    requires AllDigits(s)
    ensures DotIndex(s) == |s|
  {
    DotIndexFacts(s);
  }

  /** Whatever `float()` accepts, after stripping, holds only digits, at
      most one '.', and a sign only in front. */
  lemma {:induction false} ParseFloatShape(s: string)
    requires ParseFloat(s).Some?
    ensures var t := Strip(s);
      |t| > 0 && forall i :: 0 <= i < |t| ==> IsDigit(t[i]) || t[i] == '.' || (i == 0 && (t[i] == '-' || t[i] == '+'))
    ensures var t := Strip(s); forall i, j :: 0 <= i < j < |t| && t[i] == '.' ==> t[j] != '.'
  {
    var t := Strip(s);
    if |t| > 0 && (t[0] == '-' || t[0] == '+') {
      var u := t[1..];
      assert Unsigned(u).Some?;
      UnsignedShape(u);
      forall i | 1 <= i < |t| ensures IsDigit(t[i]) || (t[i] == '.' && i == DotIndex(u) + 1) {
        assert t[i] == u[i - 1];
      }
    } else {
      assert Unsigned(t).Some?;
      UnsignedShape(t);
    }
  }

  /** An unsigned literal is digits with one '.' at most, the first one. */
  lemma {:induction false} UnsignedShape(u: string)
    requires Unsigned(u).Some?
    ensures |u| > 0 && forall i :: 0 <= i < |u| ==> IsDigit(u[i]) || (u[i] == '.' && i == DotIndex(u))
  {
    var k := DotIndex(u);
    DotIndexFacts(u);
    var whole, frac := u[..k], if k < |u| then u[k + 1..] else [];
    forall i | 0 <= i < |u| ensures IsDigit(u[i]) || (u[i] == '.' && i == k) {
      if i < k {
        assert u[i] == whole[i];
      } else if i > k {
        assert u[i] == frac[i - k - 1];
      }
    }
  }

  lemma {:induction false} DotIndexFacts(s: string)
    ensures DotIndex(s) < |s| ==> s[DotIndex(s)] == '.'
    ensures forall i :: 0 <= i < DotIndex(s) ==> s[i] != '.'
  {
    if s != [] && s[0] != '.' {
      DotIndexFacts(s[1..]);
      assert forall i :: 1 <= i < |s| ==> s[i] == s[1..][i - 1];
    }
  }

  lemma {:induction false} ParseFloatExamples()
    ensures ParseFloat("abc") == None && ParseFloat("") == None && ParseFloat(".") == None
    ensures ParseFloat("7") == Some(Fixed(7, 0))
  {
    assert TrimStart("abc") == "abc" && TrimEnd("abc") == "abc";
    assert DotIndex("abc") == 3 && !IsDigit('a');
    assert TrimStart(".") == "." && TrimEnd(".") == ".";
    assert DotIndex(".") == 0 && "."[1..] == [];
    assert TrimStart("7") == "7" && TrimEnd("7") == "7";
    assert DotIndex("7") == 1 && "7"[..1] == "7" && "7" + [] == "7";
    assert DigitsValue("7") == DigitsValue("") * 10 + 7;
  }

  // ---------------------------------------------------------------------------
  // The record loops

  /** What a loop does with one record. */
  datatype Step = Skip | Unmatched(name: Value) | Planned(cell: string, value: Fixed)

  /** `if row_to_write:` fails: no row, or row 0. */
  predicate NoRow(found: Option<int>) {
    found.None? || found.value == 0
  }

  /** The step for a looked-up record, given the row the matcher returned.
      No row, and row 0, which `if row_to_write:` treats alike, leave the
      student not found; otherwise a score that does not coerce skips the
      record, and one that does plans the cell `f"{column}{row}"`. */
  function MatchedStep(rec: Record, found: Option<int>): Step
    requires rec.score.Some?
  {
    if NoRow(found) then Unmatched(rec.name)
    else match Coerce(rec.score.value)
      case None => Skip
      case Some(v) => Planned(rec.targetCol + Decimal(found.value), v)
  }

  /** The step for any record, with the matcher called only for a looked-up one. */
  function StepOf(rec: Record, matchRow: Value -> Option<int>): Step {
    if Considered(rec) then MatchedStep(rec, matchRow(rec.name)) else Skip
  }

  /** The steps of the Google Sheets loop, one per record. */
  function GsheetSteps(grades: seq<Record>, matchRow: Value -> Option<int>): seq<Step> {
    if grades == [] then []
    else GsheetSteps(grades[..|grades| - 1], matchRow) + [StepOf(grades[|grades| - 1], matchRow)]
  }

  /** The steps of the Excel loop, where the matcher may raise: the first
      raising lookup ends the whole run with its error. */
  function ExcelSteps(grades: seq<Record>, matchRow: Value -> Result<Option<int>, MatchError>)
    : Result<seq<Step>, MatchError>
  {
    if grades == [] then Ok([])
    else
      match ExcelSteps(grades[..|grades| - 1], matchRow)
      case Err(e) => Err(e)
      case Ok(steps) =>
        var rec := grades[|grades| - 1];
        if !Considered(rec) then Ok(steps + [Skip])
        else match matchRow(rec.name)
          case Err(e) => Err(e)
          case Ok(found) => Ok(steps + [MatchedStep(rec, found)])
  }

  /** The planned writes, in order, as (cell, value) pairs. */
  function Writes(steps: seq<Step>): seq<(string, Fixed)> {
    if steps == [] then []
    else
      var last := steps[|steps| - 1];
      Writes(steps[..|steps| - 1]) + (if last.Planned? then [(last.cell, last.value)] else [])
  }

  /** The names not found, in order. */
  function NotFound(steps: seq<Step>): seq<Value> {
    if steps == [] then []
    else
      var last := steps[|steps| - 1];
      NotFound(steps[..|steps| - 1]) + (if last.Unmatched? then [last.name] else [])
  }

  /** The dictionary `updates_to_perform[cell] = score_value` builds from a
      sequence of writes: a later write to a cell replaces an earlier one. */
  function LastWrites(w: seq<(string, Fixed)>): map<string, Fixed> {
    if w == [] then map[]
    else LastWrites(w[..|w| - 1])[w[|w| - 1].0 := w[|w| - 1].1]
  }

  /** The sheet both engines write to. */
  const SheetName: string := "EVALUACIÓN"

  /** The range `f"EVALUACIÓN!{column}{row}"` of an update call. */
  function RangeOf(cell: string): string {
    SheetName + "!" + cell
  }

  /** The update calls a sequence of writes makes, one per write. */
  function Calls(w: seq<(string, Fixed)>): seq<(string, Fixed)> {
    if w == [] then []
    else Calls(w[..|w| - 1]) + [(RangeOf(w[|w| - 1].0), w[|w| - 1].1)]
  }

  /** The summary both engines return; `backup_path` is not modelled. */
  datatype Summary = Summary(processed: nat, written: nat, notFound: nat, notFoundNames: seq<Value>)

  /** The Excel engine's result: the cells it saves and its summary. */
  datatype ExcelOutcome = ExcelOutcome(updates: map<string, Fixed>, summary: Summary)

  /** The Google Sheets engine's result: its update calls, in order, and its summary. */
  datatype GsheetOutcome = GsheetOutcome(calls: seq<(string, Fixed)>, summary: Summary)

  /** `_write_grades_to_excel` as a function of the records and the matcher. */
  function ExcelEngine(grades: seq<Record>, matchRow: Value -> Result<Option<int>, MatchError>)
    : Result<ExcelOutcome, MatchError>
  {
    match ExcelSteps(grades, matchRow)
    case Err(e) => Err(e)
    case Ok(steps) =>
      var updates := LastWrites(Writes(steps));
      Ok(ExcelOutcome(updates, Summary(|grades|, |updates|, |NotFound(steps)|, NotFound(steps))))
  }

  /** `_write_grades_to_gsheet` as a function of the records and the matcher. */
  function GsheetEngine(grades: seq<Record>, matchRow: Value -> Option<int>): GsheetOutcome {
    var steps := GsheetSteps(grades, matchRow);
    var calls := Calls(Writes(steps));
    GsheetOutcome(calls, Summary(|grades|, |calls|, |NotFound(steps)|, NotFound(steps)))
  }

  /** `find_match_in_excel(sheet_read, name)` with its default column and rows. */
  function ExcelMatcher(ws: Worksheet): Value -> Result<Option<int>, MatchError> {
    name => ExcelMatch(ws, name, "C", 10, 44)
  }

  /** `find_match_in_gsheet(sheet_data, name)` with its default column and rows. */
  function GsheetMatcher(data: seq<seq<string>>): Value -> Option<int> {
    name => GsheetMatch(data, name, 2, 10, 44)
  }

  lemma {:induction false} StepsSnoc(steps: seq<Step>, s: Step)
    ensures Writes(steps + [s]) == Writes(steps) + (if s.Planned? then [(s.cell, s.value)] else [])
    ensures NotFound(steps + [s]) == NotFound(steps) + (if s.Unmatched? then [s.name] else [])
  {
    assert (steps + [s])[..|steps|] == steps;
  }

  lemma {:induction false} WritesSnoc(w: seq<(string, Fixed)>, x: (string, Fixed))
    ensures LastWrites(w + [x]) == LastWrites(w)[x.0 := x.1]
    ensures Calls(w + [x]) == Calls(w) + [(RangeOf(x.0), x.1)]
  {
    assert (w + [x])[..|w|] == w;
  }

  /** `_write_grades_to_excel`: the record loop, then the count of the cells
      written. The matcher is a parameter; `ExcelMatcher` is the one the
      engine uses. */
  method WriteGradesToExcel(grades: seq<Record>, matchRow: Value -> Result<Option<int>, MatchError>)
    returns (r: Result<ExcelOutcome, MatchError>)
    ensures r == ExcelEngine(grades, matchRow)
  {
    var updates: map<string, Fixed> := map[];
    var notFound: seq<Value> := [];
    ghost var steps: seq<Step> := [];
    ghost var writes: seq<(string, Fixed)> := [];
    var i := 0;
    while i < |grades|
      invariant 0 <= i <= |grades|
      invariant ExcelSteps(grades[..i], matchRow) == Ok(steps)
      invariant writes == Writes(steps) && updates == LastWrites(writes) && notFound == NotFound(steps)
    {
      var rec := grades[i];
      assert grades[..i + 1][..i] == grades[..i] && grades[..i + 1][i] == rec;
      var s: Step := Skip;
      if Truthy(rec.name) && rec.score.Some? {
        var found := matchRow(rec.name);
        if found.Err? {
          ExcelStepsAbort(grades, matchRow, i + 1);
          return Err(found.error);
        }
        var row := found.value;
        if !NoRow(row) {
          var scoreValue := Coerce(rec.score.value);
          if scoreValue.Some? {
            var cell := rec.targetCol + Decimal(row.value);
            WritesSnoc(writes, (cell, scoreValue.value));
            updates := updates[cell := scoreValue.value];
            writes := writes + [(cell, scoreValue.value)];
            s := Planned(cell, scoreValue.value);
          }
        } else {
          notFound := notFound + [rec.name];
          s := Unmatched(rec.name);
        }
      }
      StepsSnoc(steps, s);
      steps := steps + [s];
      i := i + 1;
    }
    assert grades[..|grades|] == grades;
    var writtenCount := 0;
    if |updates| > 0 {
      writtenCount := |updates|;
    }
    return Ok(ExcelOutcome(updates, Summary(|grades|, writtenCount, |notFound|, notFound)));
  }

  /** A raising lookup ends the run: the error of a prefix is the run's. */
  lemma {:induction false} ExcelStepsAbort(grades: seq<Record>, matchRow: Value -> Result<Option<int>, MatchError>, n: nat)
    requires n <= |grades| && ExcelSteps(grades[..n], matchRow).Err?
    ensures ExcelSteps(grades, matchRow) == ExcelSteps(grades[..n], matchRow)
    decreases |grades|
  {
    if n == |grades| {
      assert grades[..n] == grades;
    } else {
      var init := grades[..|grades| - 1];
      assert init[..n] == grades[..n];
      ExcelStepsAbort(init, matchRow, n);
    }
  }

  /** `_write_grades_to_gsheet`: the record loop with one update call per
      planned cell. The matcher is a parameter; `GsheetMatcher` is the one
      the engine uses. */
  method WriteGradesToGsheet(grades: seq<Record>, matchRow: Value -> Option<int>) returns (r: GsheetOutcome)
    ensures r == GsheetEngine(grades, matchRow)
  {
    var calls: seq<(string, Fixed)> := [];
    var writtenCount := 0;
    var notFound: seq<Value> := [];
    ghost var steps: seq<Step> := [];
    ghost var writes: seq<(string, Fixed)> := [];
    var i := 0;
    while i < |grades|
      invariant 0 <= i <= |grades|
      invariant GsheetSteps(grades[..i], matchRow) == steps
      invariant writes == Writes(steps) && calls == Calls(writes) && notFound == NotFound(steps)
      invariant writtenCount == |calls|
    {
      var rec := grades[i];
      assert grades[..i + 1][..i] == grades[..i] && grades[..i + 1][i] == rec;
      var s: Step := Skip;
      if Truthy(rec.name) && rec.score.Some? {
        var row := matchRow(rec.name);
        if !NoRow(row) {
          var scoreValue := Coerce(rec.score.value);
          if scoreValue.Some? {
            var cell := rec.targetCol + Decimal(row.value);
            WritesSnoc(writes, (cell, scoreValue.value));
            calls := calls + [(RangeOf(cell), scoreValue.value)];
            writtenCount := writtenCount + 1;
            writes := writes + [(cell, scoreValue.value)];
            s := Planned(cell, scoreValue.value);
          }
        } else {
          notFound := notFound + [rec.name];
          s := Unmatched(rec.name);
        }
      }
      StepsSnoc(steps, s);
      steps := steps + [s];
      i := i + 1;
    }
    assert grades[..|grades|] == grades;
    return GsheetOutcome(calls, Summary(|grades|, writtenCount, |notFound|, notFound));
  }

  // ---------------------------------------------------------------------------
  // Properties of the loops

  /** Write `i` goes to `cell`. */
  predicate WritesCell(w: seq<(string, Fixed)>, i: int, cell: string) {
    0 <= i < |w| && w[i].0 == cell
  }

  /** The saved cells are exactly the written ones. */
  lemma {:induction false} LastWritesDomain(w: seq<(string, Fixed)>, cell: string)
    ensures cell in LastWrites(w) <==> exists i :: WritesCell(w, i, cell)
  {
    if w != [] {
      var init, x := w[..|w| - 1], w[|w| - 1];
      LastWritesDomain(init, cell);
      if x.0 == cell {
        assert WritesCell(w, |w| - 1, cell);
      } else {
        if cell in LastWrites(init) {
          var i :| WritesCell(init, i, cell);
          assert WritesCell(w, i, cell);
        }
        if exists i :: WritesCell(w, i, cell) {
          var i :| WritesCell(w, i, cell);
          assert WritesCell(init, i, cell);
        }
      }
    }
  }

  /** Each saved cell holds the value of its last write. */
  lemma {:induction false} LastWritesIsLast(w: seq<(string, Fixed)>, cell: string)
    requires cell in LastWrites(w)
    ensures exists i :: WritesCell(w, i, cell) && w[i].1 == LastWrites(w)[cell] && forall j :: i < j < |w| ==> w[j].0 != cell
  {
    var init, x := w[..|w| - 1], w[|w| - 1];
    if x.0 == cell {
      assert WritesCell(w, |w| - 1, cell);
    } else {
      assert cell in LastWrites(init);
      LastWritesIsLast(init, cell);
      var i :| WritesCell(init, i, cell) && init[i].1 == LastWrites(init)[cell]
        && forall j :: i < j < |init| ==> init[j].0 != cell;
      assert WritesCell(w, i, cell);
    }
  }

  /** No two writes go to the same cell. */
  predicate DistinctCells(w: seq<(string, Fixed)>) {
    forall i, j :: 0 <= i < j < |w| ==> w[i].0 != w[j].0
  }

  /** The Excel count `len(updates_to_perform)` never exceeds the number of
      writes, and equals it exactly when no cell is written twice. */
  lemma {:induction false} LastWritesCount(w: seq<(string, Fixed)>)
    ensures |LastWrites(w)| <= |w|
    ensures |LastWrites(w)| == |w| <==> DistinctCells(w)
  {
    if w != [] {
      var init, x := w[..|w| - 1], w[|w| - 1];
      LastWritesCount(init);
      LastWritesDomain(init, x.0);
      if x.0 in LastWrites(init) {
        var i :| WritesCell(init, i, x.0);
        assert w[i].0 == w[|w| - 1].0;
      } else {
        assert LastWrites(w).Keys == LastWrites(init).Keys + {x.0};
        assert DistinctCells(w) <==> DistinctCells(init) by {
          if DistinctCells(init) {
            forall i, j | 0 <= i < j < |w| ensures w[i].0 != w[j].0 {
              if j < |init| {
                assert init[i].0 != init[j].0;
              } else {
                assert !WritesCell(init, i, x.0);
              }
            }
          }
          if DistinctCells(w) {
            forall i, j | 0 <= i < j < |init| ensures init[i].0 != init[j].0 {
              assert w[i].0 != w[j].0;
            }
          }
        }
      }
    }
  }

  /** One update call per write, to the write's cell of the sheet, in order. */
  lemma {:induction false} CallsOfWrites(w: seq<(string, Fixed)>)
    ensures |Calls(w)| == |w|
    ensures forall i :: 0 <= i < |w| ==> Calls(w)[i] == (RangeOf(w[i].0), w[i].1)
  {
    if w != [] {
      CallsOfWrites(w[..|w| - 1]);
    }
  }

  /** A matcher that never raises. */
  function Lifted(matchRow: Value -> Option<int>): Value -> Result<Option<int>, MatchError> {
    name => Ok(matchRow(name))
  }

  lemma {:induction false} ExcelStepsLifted(grades: seq<Record>, matchRow: Value -> Option<int>)
    ensures ExcelSteps(grades, Lifted(matchRow)) == Ok(GsheetSteps(grades, matchRow))
  {
    if grades != [] {
      ExcelStepsLifted(grades[..|grades| - 1], matchRow);
    }
  }

  /** Given the same rows, the two engines reconcile alike: same processed
      count and not-found names, the Excel plan is the last write of each
      cell the Google Sheets engine updates, and the Excel `written` count
      is at most the Google Sheets one, the same exactly when no cell is
      updated twice. */
  lemma {:induction false} EnginesAgree(grades: seq<Record>, matchRow: Value -> Option<int>)
    ensures var g, e := GsheetEngine(grades, matchRow), ExcelEngine(grades, Lifted(matchRow));
      var w := Writes(GsheetSteps(grades, matchRow));
      e.Ok? && e.value.summary.processed == g.summary.processed
      && e.value.summary.notFoundNames == g.summary.notFoundNames
      && e.value.updates == LastWrites(w) && g.calls == Calls(w)
      && e.value.summary.written <= g.summary.written
      && (e.value.summary.written == g.summary.written <==> DistinctCells(w))
  {
    ExcelStepsLifted(grades, matchRow);
    var w := Writes(GsheetSteps(grades, matchRow));
    LastWritesCount(w);
    CallsOfWrites(w);
  }

  /** The matcher with its raising lookups read as "no row". */
  function Unwrapped(matchRow: Value -> Result<Option<int>, MatchError>): Value -> Option<int> {
    name => if matchRow(name).Ok? then matchRow(name).value else None
  }

  /** The lookup of `rec` raises. */
  predicate Raises(rec: Record, matchRow: Value -> Result<Option<int>, MatchError>) {
    Considered(rec) && matchRow(rec.name).Err?
  }

  /** The Excel engine fails exactly when looking up some record raises;
      otherwise it takes the steps of the Google Sheets loop. */
  lemma {:induction false} ExcelStepsOutcome(grades: seq<Record>, matchRow: Value -> Result<Option<int>, MatchError>)
    ensures ExcelSteps(grades, matchRow).Err? <==> exists rec :: rec in grades && Raises(rec, matchRow)
    ensures ExcelSteps(grades, matchRow).Ok? ==> ExcelSteps(grades, matchRow).value == GsheetSteps(grades, Unwrapped(matchRow))
  {
    if grades != [] {
      var init, rec := grades[..|grades| - 1], grades[|grades| - 1];
      ExcelStepsOutcome(init, matchRow);
      assert grades == init + [rec];
      forall r ensures r in grades <==> r in init || r == rec {
      }
      if ExcelSteps(init, matchRow).Ok? {
        var steps := ExcelSteps(init, matchRow).value;
        assert GsheetSteps(grades, Unwrapped(matchRow)) == steps + [StepOf(rec, Unwrapped(matchRow))];
        if Raises(rec, matchRow) {
          assert ExcelSteps(grades, matchRow).Err?;
        } else if Considered(rec) {
          assert Unwrapped(matchRow)(rec.name) == matchRow(rec.name).value;
          assert ExcelSteps(grades, matchRow) == Ok(steps + [MatchedStep(rec, matchRow(rec.name).value)]);
        } else {
          assert ExcelSteps(grades, matchRow) == Ok(steps + [Skip]);
        }
      }
    }
  }

  /** The records that are looked up, in order. */
  function Kept(grades: seq<Record>): seq<Record> {
    if grades == [] then []
    else Kept(grades[..|grades| - 1]) + (if Considered(grades[|grades| - 1]) then [grades[|grades| - 1]] else [])
  }

  /** Records with a falsy name or a missing score change nothing but the
      processed count: the Google Sheets engine makes the same calls and
      misses the same names without them. */
  lemma {:induction false} GsheetSkipsIgnored(grades: seq<Record>, matchRow: Value -> Option<int>)
    ensures Writes(GsheetSteps(Kept(grades), matchRow)) == Writes(GsheetSteps(grades, matchRow))
    ensures NotFound(GsheetSteps(Kept(grades), matchRow)) == NotFound(GsheetSteps(grades, matchRow))
  {
    if grades != [] {
      var init, rec := grades[..|grades| - 1], grades[|grades| - 1];
      GsheetSkipsIgnored(init, matchRow);
      var steps, kept := GsheetSteps(init, matchRow), Kept(init);
      var s := StepOf(rec, matchRow);
      assert GsheetSteps(grades, matchRow) == steps + [s];
      StepsSnoc(steps, s);
      if Considered(rec) {
        assert Kept(grades) == kept + [rec];
        assert (kept + [rec])[..|kept|] == kept;
        assert GsheetSteps(Kept(grades), matchRow) == GsheetSteps(kept, matchRow) + [s];
        StepsSnoc(GsheetSteps(kept, matchRow), s);
      } else {
        assert Kept(grades) == kept;
      }
    }
  }

  lemma {:induction false} KeptMembers(grades: seq<Record>)
    ensures forall r :: r in Kept(grades) <==> r in grades && Considered(r)
  {
    if grades != [] {
      var init, rec := grades[..|grades| - 1], grades[|grades| - 1];
      KeptMembers(init);
      assert grades == init + [rec];
    }
  }

  /** The same for the Excel engine: it fails for the same reason without
      the skipped records, and otherwise saves the same cells and misses the
      same names. */
  lemma {:induction false} ExcelSkipsIgnored(grades: seq<Record>, matchRow: Value -> Result<Option<int>, MatchError>)
    ensures var a, b := ExcelEngine(grades, matchRow), ExcelEngine(Kept(grades), matchRow);
      a.Ok? == b.Ok?
      && (a.Ok? ==> (a.value.updates == b.value.updates && a.value.summary.notFoundNames == b.value.summary.notFoundNames
                     && a.value.summary.written == b.value.summary.written))
  {
    ExcelStepsOutcome(grades, matchRow);
    ExcelStepsOutcome(Kept(grades), matchRow);
    KeptMembers(grades);
    GsheetSkipsIgnored(grades, Unwrapped(matchRow));
  }

  /** The names not found are those of the looked-up records the matcher
      finds no row for. */
  lemma {:induction false} NotFoundMembers(grades: seq<Record>, matchRow: Value -> Option<int>, v: Value)
    ensures v in NotFound(GsheetSteps(grades, matchRow)) <==>
      exists rec :: rec in grades && Considered(rec) && rec.name == v && NoRow(matchRow(v))
  {
    if grades != [] {
      var init, rec := grades[..|grades| - 1], grades[|grades| - 1];
      var step := StepOf(rec, matchRow);
      NotFoundMembers(init, matchRow, v);
      StepsSnoc(GsheetSteps(init, matchRow), step);
      assert NotFound(GsheetSteps(grades, matchRow)) == NotFound(GsheetSteps(init, matchRow)) + (if step.Unmatched? then [step.name] else []);
      assert (step.Unmatched? && step.name == v) <==> (Considered(rec) && rec.name == v && NoRow(matchRow(v)));
      assert grades == init + [rec];
      if exists r :: r in grades && Considered(r) && r.name == v && NoRow(matchRow(v)) {
        var r :| r in grades && Considered(r) && r.name == v && NoRow(matchRow(v));
        if r != rec {
          assert r in init;
        }
      }
      if exists r :: r in init && Considered(r) && r.name == v && NoRow(matchRow(v)) {
        var r :| r in init && Considered(r) && r.name == v && NoRow(matchRow(v));
        assert r in grades;
      }
    }
  }

  /** What one more record does to a Google Sheets run: a skipped record and
      a score that does not coerce change nothing but the processed count,
      an unmatched name is appended to the not-found names, and a planned
      cell adds one update call, even for a cell already updated. */
  lemma {:induction false} GsheetAppend(grades: seq<Record>, rec: Record, matchRow: Value -> Option<int>)
    ensures var a, b := GsheetEngine(grades, matchRow), GsheetEngine(grades + [rec], matchRow);
      b.summary.processed == a.summary.processed + 1
      && (!Considered(rec) ==> b.calls == a.calls && b.summary.notFoundNames == a.summary.notFoundNames)
      && (Considered(rec) && NoRow(matchRow(rec.name)) ==>
          b.calls == a.calls && b.summary.notFoundNames == a.summary.notFoundNames + [rec.name])
      && (Considered(rec) && !NoRow(matchRow(rec.name)) && Coerce(rec.score.value).None? ==>
          b.calls == a.calls && b.summary.notFoundNames == a.summary.notFoundNames)
      && (Considered(rec) && !NoRow(matchRow(rec.name)) && Coerce(rec.score.value).Some? ==>
          b.calls == a.calls + [(RangeOf(rec.targetCol + Decimal(matchRow(rec.name).value)), Coerce(rec.score.value).value)]
          && b.summary.written == a.summary.written + 1
          && b.summary.notFoundNames == a.summary.notFoundNames)
  {
    var steps := GsheetSteps(grades, matchRow);
    assert (grades + [rec])[..|grades|] == grades;
    var s := StepOf(rec, matchRow);
    assert GsheetSteps(grades + [rec], matchRow) == steps + [s];
    StepsSnoc(steps, s);
    if s.Planned? {
      WritesSnoc(Writes(steps), (s.cell, s.value));
    } else {
      assert Writes(steps + [s]) == Writes(steps);
      assert GsheetEngine(grades + [rec], matchRow).calls == GsheetEngine(grades, matchRow).calls;
      if s.Unmatched? {
        assert NotFound(steps + [s]) == NotFound(steps) + [rec.name];
      }
    }
  }

  /** What one more record does to a successful Excel run: the same, except
      that a planned cell replaces the cell's earlier value in the plan. */
  lemma {:induction false} ExcelAppend(grades: seq<Record>, rec: Record, matchRow: Value -> Result<Option<int>, MatchError>)
    requires ExcelEngine(grades, matchRow).Ok?
    ensures var a, b := ExcelEngine(grades, matchRow).value, ExcelEngine(grades + [rec], matchRow);
      (b.Err? <==> Raises(rec, matchRow))
      && (!Considered(rec) ==> b == Ok(a.(summary := a.summary.(processed := a.summary.processed + 1))))
      && (Considered(rec) && matchRow(rec.name).Ok? && NoRow(matchRow(rec.name).value) ==>
          b.Ok? && b.value.updates == a.updates && b.value.summary.notFoundNames == a.summary.notFoundNames + [rec.name])
      && (Considered(rec) && matchRow(rec.name).Ok? && !NoRow(matchRow(rec.name).value) && Coerce(rec.score.value).None? ==>
          b == Ok(a.(summary := a.summary.(processed := a.summary.processed + 1))))
      && (Considered(rec) && matchRow(rec.name).Ok? && !NoRow(matchRow(rec.name).value) && Coerce(rec.score.value).Some? ==>
          b.Ok? && b.value.summary.notFoundNames == a.summary.notFoundNames
          && b.value.updates == a.updates[rec.targetCol + Decimal(matchRow(rec.name).value.value) := Coerce(rec.score.value).value])
  {
    var steps := ExcelSteps(grades, matchRow).value;
    assert (grades + [rec])[..|grades|] == grades;
    if Considered(rec) && matchRow(rec.name).Ok? {
      var s := MatchedStep(rec, matchRow(rec.name).value);
      assert ExcelSteps(grades + [rec], matchRow) == Ok(steps + [s]);
      StepsSnoc(steps, s);
      if s.Planned? {
        WritesSnoc(Writes(steps), (s.cell, s.value));
      } else {
        assert Writes(steps + [s]) == Writes(steps);
        if s.Unmatched? {
          assert NotFound(steps + [s]) == NotFound(steps) + [rec.name];
        } else {
          assert NotFound(steps + [s]) == NotFound(steps);
        }
      }
    } else if !Considered(rec) {
      assert ExcelSteps(grades + [rec], matchRow) == Ok(steps + [Skip]);
      StepsSnoc(steps, Skip);
      assert Writes(steps + [Skip]) == Writes(steps) && NotFound(steps + [Skip]) == NotFound(steps);
    }
  }

  // ---------------------------------------------------------------------------
  // The target column

  /** Why a run stops before either engine starts: no grades to write, an
      activity map that could not be built, or no column for the task. */
  datatype ProcessError = NoGrades | MapFailed(error: LayoutError) | NoTargetColumn

  /** The first period of the map with the given name. */
  function FirstPeriodNamed(periods: seq<Period>, name: string): Option<Period> {
    if periods == [] then None
    else if periods[0].name == name then Some(periods[0])
    else FirstPeriodNamed(periods[1..], name)
  }

  /** The period found is the first one with that name, and none is found
      exactly when no period has it. */
  lemma {:induction false} FirstPeriodNamedIsFirst(periods: seq<Period>, name: string)
    ensures FirstPeriodNamed(periods, name).None? <==> forall k :: 0 <= k < |periods| ==> periods[k].name != name
    ensures FirstPeriodNamed(periods, name).Some? ==>
      exists k :: (0 <= k < |periods| && periods[k] == FirstPeriodNamed(periods, name).value
        && periods[k].name == name && forall j :: 0 <= j < k ==> periods[j].name != name)
    decreases |periods|
  {
    if periods != [] && periods[0].name != name {
      FirstPeriodNamedIsFirst(periods[1..], name);
      if FirstPeriodNamed(periods[1..], name).Some? {
        var k :| 0 <= k < |periods[1..]| && periods[1..][k] == FirstPeriodNamed(periods[1..], name).value
          && periods[1..][k].name == name && forall j :: 0 <= j < k ==> periods[1..][j].name != name;
        assert periods[k + 1] == periods[1..][k];
        forall j | 0 <= j < k + 1 ensures periods[j].name != name {
          if j > 0 { assert periods[j] == periods[1..][j - 1]; }
        }
      } else {
        forall k | 0 <= k < |periods| ensures periods[k].name != name {
          if k > 0 { assert periods[k] == periods[1..][k - 1]; }
        }
      }
    }
  }

  /** The column of task `tarea` in the first period named `trimestre`. */
  function TargetColumn(periods: seq<Period>, trimestre: string, tarea: string): Option<string> {
    match FirstPeriodNamed(periods, trimestre)
    case None => None
    case Some(p) => if tarea in p.tasks then Some(p.tasks[tarea]) else None
  }

  /** The records with their target column set. */
  function Stamped(grades: seq<Record>, col: string): seq<Record> {
    seq(|grades|, i requires 0 <= i < |grades| => grades[i].(targetCol := col))
  }

  /** The checks made before an engine runs, in their order: the grades,
      the activity map, then the column, where an empty column counts as
      missing. */
  function Resolve(grades: seq<Record>, layout: Result<seq<Period>, LayoutError>, trimestre: string, tarea: string)
    : Result<seq<Record>, ProcessError>
  {
    if grades == [] then Err(NoGrades)
    else if layout.Err? then Err(MapFailed(layout.error))
    else match TargetColumn(layout.value, trimestre, tarea)
      case None => Err(NoTargetColumn)
      case Some(col) => if col == "" then Err(NoTargetColumn) else Ok(Stamped(grades, col))
  }

  /** Sets the target column of every record, keeping everything else. */
  method StampTargetColumn(grades: seq<Record>, col: string) returns (stamped: seq<Record>)
    ensures |stamped| == |grades|
    ensures forall i :: 0 <= i < |grades| ==> stamped[i] == grades[i].(targetCol := col)
  {
    stamped := [];
    for i := 0 to |grades|
      invariant |stamped| == i
      invariant forall j :: 0 <= j < i ==> stamped[j] == grades[j].(targetCol := col)
    {
      stamped := stamped + [grades[i].(targetCol := col)];
    }
  }

  /** The checks of `run_grade_processing` and the stamping of the
      records, with the activity map given. */
  method PrepareRecords(grades: seq<Record>, layout: Result<seq<Period>, LayoutError>, trimestre: string, tarea: string)
    returns (r: Result<seq<Record>, ProcessError>)
    ensures r == Resolve(grades, layout, trimestre, tarea)
  {
    if grades == [] {
      return Err(NoGrades);
    }
    if layout.Err? {
      return Err(MapFailed(layout.error));
    }
    var trimestreInfo := FirstPeriodNamed(layout.value, trimestre);
    var targetColumn := if trimestreInfo.Some? && tarea in trimestreInfo.value.tasks then trimestreInfo.value.tasks[tarea] else "";
    if targetColumn == "" {
      return Err(NoTargetColumn);
    }
    var stamped := StampTargetColumn(grades, targetColumn);
    assert stamped == Stamped(grades, targetColumn);
    return Ok(stamped);
  }

  /** Each failure happens exactly under its condition, and a success keeps
      every record's name and score and gives all of them the column. */
  lemma {:induction false} ResolveOutcome(grades: seq<Record>, layout: Result<seq<Period>, LayoutError>, trimestre: string, tarea: string)
    ensures Resolve(grades, layout, trimestre, tarea) == Err(NoGrades) <==> grades == []
    ensures (grades != [] && layout.Err?) <==> Resolve(grades, layout, trimestre, tarea).Err? && Resolve(grades, layout, trimestre, tarea).error.MapFailed?
    ensures grades != [] && layout.Err? ==> Resolve(grades, layout, trimestre, tarea) == Err(MapFailed(layout.error))
    ensures Resolve(grades, layout, trimestre, tarea).Ok? <==>
      (grades != [] && layout.Ok? && TargetColumn(layout.value, trimestre, tarea).Some?
        && TargetColumn(layout.value, trimestre, tarea).value != "")
    ensures Resolve(grades, layout, trimestre, tarea).Ok? ==>
      var stamped := Resolve(grades, layout, trimestre, tarea).value;
      (|stamped| == |grades|
        && forall i :: 0 <= i < |grades| ==> (stamped[i].name == grades[i].name && stamped[i].score == grades[i].score
          && stamped[i].targetCol == TargetColumn(layout.value, trimestre, tarea).value))
  {
  }

  /** A column found is the entry for the task in some period of the map. */
  lemma {:induction false} TargetColumnEntry(periods: seq<Period>, trimestre: string, tarea: string) returns (k: int)
    requires TargetColumn(periods, trimestre, tarea).Some?
    ensures 0 <= k < |periods| && periods[k].name == trimestre && tarea in periods[k].tasks
    ensures TargetColumn(periods, trimestre, tarea).value == periods[k].tasks[tarea]
  {
    FirstPeriodNamedIsFirst(periods, trimestre);
    k :| 0 <= k < |periods| && periods[k] == FirstPeriodNamed(periods, trimestre).value
      && periods[k].name == trimestre && forall j :: 0 <= j < k ==> periods[j].name != trimestre;
  }

  /** The header and activity row a run reads the map with. */
  const Header := "RESULTADO APRENDIZAJE"
  const ActivityRow := 9

  /** In a workbook, a column found is the letter of a column of a header
      range whose activity-row cell names the task, so it is never empty, and
      the only column failure is a task the period does not have (or no
      period of that name). */
  lemma {:induction false} ExcelTarget(wb: Workbook, trimestre: string, tarea: string)
    requires Mapping.ExcelLayout(wb, SheetName, Header, ActivityRow).Ok?
    requires TargetColumn(Mapping.ExcelLayout(wb, SheetName, Header, ActivityRow).value, trimestre, tarea).Some?
    ensures SheetName in wb
    ensures var col := TargetColumn(Mapping.ExcelLayout(wb, SheetName, Header, ActivityRow).value, trimestre, tarea).value;
      col != "" && exists c: Pos :: col == ColumnLetter(c) && Mapping.CellTask(CellAt(wb[SheetName], ActivityRow, c)) == Some(tarea)
  {
    var ps := Mapping.ExcelLayout(wb, SheetName, Header, ActivityRow).value;
    var k := TargetColumnEntry(ps, trimestre, tarea);
    Mapping.ExcelTaskColumn(wb, SheetName, Header, ActivityRow, k, tarea);
    var ws := wb[SheetName];
    var r, c :| r in ws.merged && Mapping.IsHeaderRange(ws, Header, r) && r.minCol <= c <= r.maxCol
      && ps[k].tasks[tarea] == ColumnLetter(c)
      && Mapping.CellTask(CellAt(ws, ActivityRow, c)) == Some(tarea);
  }

  /** The same for the value grid of a Google Sheets document: a column
      found is the letter of a column of the activity row whose value names
      the task. */
  lemma {:induction false} GsheetTarget(data: seq<seq<string>>, trimestre: string, tarea: string)
    requires Mapping.GsheetLayout(data, Header, ActivityRow).Ok?
    requires TargetColumn(Mapping.GsheetLayout(data, Header, ActivityRow).value, trimestre, tarea).Some?
    ensures ActivityRow <= |data|
    ensures var col := TargetColumn(Mapping.GsheetLayout(data, Header, ActivityRow).value, trimestre, tarea).value;
      col != "" && exists c :: 1 <= c <= |data[ActivityRow - 1]| && col == ColumnLetter(c) && TaskLabel(data[ActivityRow - 1][c - 1]) == Some(tarea)
  {
    var ps := Mapping.GsheetLayout(data, Header, ActivityRow).value;
    var k := TargetColumnEntry(ps, trimestre, tarea);
    Mapping.GsheetTaskColumn(data, Header, ActivityRow, k, tarea);
    var starts := Grid.HeaderColumns(data, Header, ActivityRow - 1);
    var row := data[ActivityRow - 1];
    var i, c :| 0 <= i < |starts| && Grid.InBlock(Grid.GridBlock(starts, |row|, 1, i), c) && 1 <= c <= |row|
      && ps[k].tasks[tarea] == ColumnLetter(c)
      && TaskLabel(row[c - 1]) == Some(tarea);
  }

  // ---------------------------------------------------------------------------
  // The engine call

  /** The destination of a run: a workbook, whose "EVALUACIÓN" sheet both the
      map and the engine read, or the values of the "EVALUACIÓN!A1:Z50"
      range of a Google Sheets document. */
  datatype Destination = ExcelFile(wb: Workbook) | Spreadsheet(data: seq<seq<string>>)

  /** What the engine of a run returns. */
  datatype RunOutcome = ExcelWritten(excel: ExcelOutcome) | SheetWritten(gsheet: GsheetOutcome)

  /** Why a run ends without an outcome: a check before the engine, the
      workbook matcher raising, or the engine call raising a TypeError. */
  datatype RunError = Refused(cause: ProcessError) | MatchFailed(matchError: MatchError) | EngineArity

  /** The activity map a run builds for its destination, with the defaults
      of the map builders. */
  function DestinationLayout(dest: Destination): Result<seq<Period>, LayoutError> {
    match dest
    case ExcelFile(wb) => Mapping.ExcelLayout(wb, SheetName, Header, ActivityRow)
    case Spreadsheet(data) => Mapping.GsheetLayout(data, Header, ActivityRow)
  }

  /** The engine call of the last lines of `run_grade_processing` as line
      181 evidently means it: the Excel engine on the path and the records. */
  function Dispatch(dest: Destination, stamped: seq<Record>): Result<RunOutcome, RunError> {
    match dest
    case ExcelFile(wb) =>
      if SheetName !in wb then Err(Refused(MapFailed(MissingSheet)))
      else
        (match ExcelEngine(stamped, ExcelMatcher(wb[SheetName]))
         case Err(e) => Err(MatchFailed(e))
         case Ok(o) => Ok(ExcelWritten(o)))
    case Spreadsheet(data) => Ok(SheetWritten(GsheetEngine(stamped, GsheetMatcher(data))))
  }

  /** The engine call as line 181 writes it: `_write_grades_to_excel` takes
      two parameters and is passed three, so the call raises before the
      engine starts. */
  function DispatchAsWritten(dest: Destination, stamped: seq<Record>): Result<RunOutcome, RunError> {
    match dest
    case ExcelFile(_) => Err(EngineArity)
    case Spreadsheet(data) => Ok(SheetWritten(GsheetEngine(stamped, GsheetMatcher(data))))
  }

  /** `run_grade_processing` on the loaded grades. */
  function Run(grades: seq<Record>, dest: Destination, trimestre: string, tarea: string): Result<RunOutcome, RunError> {
    match Resolve(grades, DestinationLayout(dest), trimestre, tarea)
    case Err(e) => Err(Refused(e))
    case Ok(stamped) => Dispatch(dest, stamped)
  }

  /** `run_grade_processing` with the engine call as written. */
  function RunAsWritten(grades: seq<Record>, dest: Destination, trimestre: string, tarea: string): Result<RunOutcome, RunError> {
    match Resolve(grades, DestinationLayout(dest), trimestre, tarea)
    case Err(e) => Err(Refused(e))
    case Ok(stamped) => DispatchAsWritten(dest, stamped)
  }

  /** As written, no run to a workbook writes anything: one that passes the
      checks always ends in the TypeError of the engine call. */
  lemma {:induction false} RunAsWrittenNeverWritesExcel(grades: seq<Record>, wb: Workbook, trimestre: string, tarea: string)
    ensures RunAsWritten(grades, ExcelFile(wb), trimestre, tarea).Err?
    ensures Resolve(grades, DestinationLayout(ExcelFile(wb)), trimestre, tarea).Ok? ==>
      RunAsWritten(grades, ExcelFile(wb), trimestre, tarea) == Err(EngineArity)
  {
  }

  /** `cell` is a reference in column `col`: the column followed by a row number. */
  ghost predicate InColumn(cell: string, col: string) {
    exists row: int :: cell == col + Decimal(row)
  }

  /** Records that all carry the column `col` plan writes only to cells of that column. */
  lemma {:induction false} WritesInColumn(grades: seq<Record>, matchRow: Value -> Option<int>, col: string)
    requires forall i :: 0 <= i < |grades| ==> grades[i].targetCol == col
    ensures forall i :: 0 <= i < |Writes(GsheetSteps(grades, matchRow))| ==> InColumn(Writes(GsheetSteps(grades, matchRow))[i].0, col)
  {
    if grades != [] {
      var init, rec := grades[..|grades| - 1], grades[|grades| - 1];
      WritesInColumn(init, matchRow, col);
      var s := StepOf(rec, matchRow);
      StepsSnoc(GsheetSteps(init, matchRow), s);
      var w := Writes(GsheetSteps(grades, matchRow));
      assert w == Writes(GsheetSteps(init, matchRow)) + (if s.Planned? then [(s.cell, s.value)] else []);
      if s.Planned? {
        assert s.cell == col + Decimal(matchRow(rec.name).value);
      }
    }
  }

  /** The column the map of the destination gives the task, or "" when it
      gives none. */
  function RunColumn(dest: Destination, trimestre: string, tarea: string): string {
    match DestinationLayout(dest)
    case Err(_) => ""
    case Ok(periods) =>
      match TargetColumn(periods, trimestre, tarea)
      case None => ""
      case Some(col) => col
  }

  /** The column a run that passes the checks stamps on its records. */
  lemma {:induction false} ResolvedColumn(grades: seq<Record>, dest: Destination, trimestre: string, tarea: string)
    returns (col: string)
    requires Resolve(grades, DestinationLayout(dest), trimestre, tarea).Ok?
    ensures col != "" && col == RunColumn(dest, trimestre, tarea)
    ensures var stamped := Resolve(grades, DestinationLayout(dest), trimestre, tarea).value;
      |stamped| == |grades| && forall i :: 0 <= i < |stamped| ==> stamped[i].targetCol == col
  {
    ResolveOutcome(grades, DestinationLayout(dest), trimestre, tarea);
    col := RunColumn(dest, trimestre, tarea);
  }

  /** As intended, a workbook run that passes the checks fails only when a
      lookup raises, and otherwise reports every record and saves only
      cells of the task's column. */
  lemma {:induction false} RunWritesExcel(grades: seq<Record>, wb: Workbook, trimestre: string, tarea: string)
    requires Resolve(grades, DestinationLayout(ExcelFile(wb)), trimestre, tarea).Ok?
    ensures SheetName in wb
    ensures var col := RunColumn(ExcelFile(wb), trimestre, tarea);
      var r := Run(grades, ExcelFile(wb), trimestre, tarea);
      (r.Err? <==> exists rec :: rec in grades && Raises(rec, ExcelMatcher(wb[SheetName])))
      && (r.Ok? ==>
            r.value.ExcelWritten? && r.value.excel.summary.processed == |grades|
            && forall cell :: cell in r.value.excel.updates ==> InColumn(cell, col))
  {
    var layout := DestinationLayout(ExcelFile(wb));
    ResolveOutcome(grades, layout, trimestre, tarea);
    ExcelLayoutSheet(wb);
    var col := ResolvedColumn(grades, ExcelFile(wb), trimestre, tarea);
    var stamped := Resolve(grades, layout, trimestre, tarea).value;
    var m := ExcelMatcher(wb[SheetName]);
    ExcelStepsOutcome(stamped, m);
    StampedRaises(grades, stamped, m);
    if ExcelSteps(stamped, m).Ok? {
      var w := Writes(GsheetSteps(stamped, Unwrapped(m)));
      WritesInColumn(stamped, Unwrapped(m), col);
      forall cell | cell in LastWrites(w) ensures InColumn(cell, col) {
        LastWritesDomain(w, cell);
      }
    }
  }

  /** The discrepancy of line 181: where no lookup raises, the intended run
      to a workbook succeeds, and the run as written ends in the TypeError. */
  lemma {:induction false} ExcelRunDiffers(grades: seq<Record>, wb: Workbook, trimestre: string, tarea: string)
    requires Resolve(grades, DestinationLayout(ExcelFile(wb)), trimestre, tarea).Ok?
    requires SheetName in wb && forall rec :: rec in grades ==> !Raises(rec, ExcelMatcher(wb[SheetName]))
    ensures Run(grades, ExcelFile(wb), trimestre, tarea).Ok?
    ensures RunAsWritten(grades, ExcelFile(wb), trimestre, tarea) == Err(EngineArity)
  {
    RunWritesExcel(grades, wb, trimestre, tarea);
  }

  /** A workbook whose map was built has the sheet. */
  lemma {:induction false} ExcelLayoutSheet(wb: Workbook)
    requires DestinationLayout(ExcelFile(wb)).Ok?
    ensures SheetName in wb
  {
    Mapping.ExcelLayoutErrors(wb, SheetName, Header, ActivityRow);
  }

  /** Stamping a column does not change which lookups raise. */
  lemma {:induction false} StampedRaises(grades: seq<Record>, stamped: seq<Record>, m: Value -> Result<Option<int>, MatchError>)
    requires |stamped| == |grades|
    requires forall i :: 0 <= i < |grades| ==> stamped[i].name == grades[i].name && stamped[i].score == grades[i].score
    ensures (exists rec :: rec in stamped && Raises(rec, m)) <==> (exists rec :: rec in grades && Raises(rec, m))
  {
    if exists rec :: rec in stamped && Raises(rec, m) {
      var rec :| rec in stamped && Raises(rec, m);
      var i :| 0 <= i < |stamped| && stamped[i] == rec;
      assert Raises(grades[i], m);
    }
    if exists rec :: rec in grades && Raises(rec, m) {
      var rec :| rec in grades && Raises(rec, m);
      var i :| 0 <= i < |grades| && grades[i] == rec;
      assert Raises(stamped[i], m);
    }
  }

  /** When every update call returns, a Google Sheets run that passes the
      checks reports every record and sends every update to a cell of the
      task's column. */
  lemma {:induction false} RunWritesSheet(grades: seq<Record>, data: seq<seq<string>>, trimestre: string, tarea: string)
    requires Resolve(grades, DestinationLayout(Spreadsheet(data)), trimestre, tarea).Ok?
    ensures var col := RunColumn(Spreadsheet(data), trimestre, tarea);
      var r := Run(grades, Spreadsheet(data), trimestre, tarea);
      r.Ok? && r.value.SheetWritten? && r.value.gsheet.summary.processed == |grades|
      && forall i :: 0 <= i < |r.value.gsheet.calls| ==>
        exists cell :: r.value.gsheet.calls[i].0 == RangeOf(cell) && InColumn(cell, col)
  {
    var col := ResolvedColumn(grades, Spreadsheet(data), trimestre, tarea);
    var stamped := Resolve(grades, DestinationLayout(Spreadsheet(data)), trimestre, tarea).value;
    var w := Writes(GsheetSteps(stamped, GsheetMatcher(data)));
    WritesInColumn(stamped, GsheetMatcher(data), col);
    CallsOfWrites(w);
    forall i | 0 <= i < |Calls(w)| ensures exists cell :: Calls(w)[i].0 == RangeOf(cell) && InColumn(cell, col) {
      assert Calls(w)[i].0 == RangeOf(w[i].0);
    }
  }

  /** `run_grade_processing`: the checks, the map of the destination, the
      stamping, and the engine on the stamped records. */
  method RunGradeProcessing(grades: seq<Record>, dest: Destination, trimestre: string, tarea: string)
    returns (r: Result<RunOutcome, RunError>)
    ensures r == Run(grades, dest, trimestre, tarea)
  {
    if grades == [] {
      return Err(Refused(NoGrades));
    }
    var layout: Result<seq<Period>, LayoutError>;
    match dest {
      case ExcelFile(wb) =>
        layout := Mapping.BuildMapFromExcel(wb, SheetName, Header, ActivityRow);
      case Spreadsheet(data) =>
        layout := Mapping.BuildMapFromGsheetData(data, Header, ActivityRow);
    }
    var prepared := PrepareRecords(grades, layout, trimestre, tarea);
    if prepared.Err? {
      return Err(Refused(prepared.error));
    }
    var stamped := prepared.value;
    match dest {
      case ExcelFile(wb) =>
        if SheetName !in wb {
          return Err(Refused(MapFailed(MissingSheet)));
        }
        var outcome := WriteGradesToExcel(stamped, ExcelMatcher(wb[SheetName]));
        if outcome.Err? {
          return Err(MatchFailed(outcome.error));
        }
        return Ok(ExcelWritten(outcome.value));
      case Spreadsheet(data) =>
        var outcome := WriteGradesToGsheet(stamped, GsheetMatcher(data));
        return Ok(SheetWritten(outcome));
    }
  }
}
