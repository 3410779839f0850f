/** Name normalisation and fuzzy row matching (evaluator/matcher.py). */
module Matcher {
  import opened Wrappers
  import opened PyText
  import opened Sheets

  // ---------------------------------------------------------------------------
  // Normalisation
  // ---------------------------------------------------------------------------

  /** The canonical decomposition (NFD) of the accented letters of Spanish and
      Catalan rosters: a base letter followed by one combining mark. */
  function Decomposition(c: char): Option<(char, char)> {
    match c
    case '\U{E1}' => Some(('a', '\U{301}'))  // á
    case '\U{E9}' => Some(('e', '\U{301}'))  // é
    case '\U{ED}' => Some(('i', '\U{301}'))  // í
    case '\U{F3}' => Some(('o', '\U{301}'))  // ó
    case '\U{FA}' => Some(('u', '\U{301}'))  // ú
    case '\U{C1}' => Some(('A', '\U{301}'))  // Á
    case '\U{C9}' => Some(('E', '\U{301}'))  // É
    case '\U{CD}' => Some(('I', '\U{301}'))  // Í
    case '\U{D3}' => Some(('O', '\U{301}'))  // Ó
    case '\U{DA}' => Some(('U', '\U{301}'))  // Ú
    case '\U{E0}' => Some(('a', '\U{300}'))  // à
    case '\U{E8}' => Some(('e', '\U{300}'))  // è
    case '\U{F2}' => Some(('o', '\U{300}'))  // ò
    case '\U{C0}' => Some(('A', '\U{300}'))  // À
    case '\U{C8}' => Some(('E', '\U{300}'))  // È
    case '\U{D2}' => Some(('O', '\U{300}'))  // Ò
    case '\U{FC}' => Some(('u', '\U{308}'))  // ü
    case '\U{EF}' => Some(('i', '\U{308}'))  // ï
    case '\U{DC}' => Some(('U', '\U{308}'))  // Ü
    case '\U{CF}' => Some(('I', '\U{308}'))  // Ï
    case '\U{F1}' => Some(('n', '\U{303}'))  // ñ
    case '\U{D1}' => Some(('N', '\U{303}'))  // Ñ
    case '\U{E7}' => Some(('c', '\U{327}'))  // ç
    case '\U{C7}' => Some(('C', '\U{327}'))  // Ç
    case _ => None
  }

  /** `unicodedata.combining(c) != 0` on the combining diacritical marks block. */
  predicate IsCombining(c: char) {
    '\U{300}' <= c <= '\U{36F}' && c != '\U{34F}'
  }

  function Decompose(c: char): (r: string)
    ensures |r| > 0
  {
    match Decomposition(c)
    case Some((base, mark)) => [base, mark]
    case None => [c]
  }

  /** `unicodedata.normalize('NFD', s)`. */
  function Nfd(s: string): string {
    if s == [] then [] else Decompose(s[0]) + Nfd(s[1..])
  }

  /** Keeps the characters that are not combining marks. */
  function StripMarks(s: string): string {
    if s == [] then []
    else (if IsCombining(s[0]) then [] else [s[0]]) + StripMarks(s[1..])
  }

  /** `s.replace(',', '')`. */
  function RemoveCommas(s: string): string {
    if s == [] then []
    else (if s[0] == ',' then [] else [s[0]]) + RemoveCommas(s[1..])
  }

  /** Words ignored when names are compared. */
  const StopWords: set<string> := {"de", "la", "del", "los", "las", "y", "e", "maria"}

  function DropStopWords(ts: seq<string>): seq<string> {
    if ts == [] then []
    else (if ts[0] in StopWords then [] else [ts[0]]) + DropStopWords(ts[1..])
  }

  /** Every character of the decomposition comes from decomposing a character of `s`. */
  lemma {:induction false} NfdMembers(s: string)
    ensures forall c :: c in Nfd(s) ==> exists x :: x in s && c in Decompose(x)
  {
    if s != [] {
      NfdMembers(s[1..]);
      forall c | c in Nfd(s) ensures exists x :: x in s && c in Decompose(x) {
        if c !in Decompose(s[0]) {
          assert c in Nfd(s[1..]);
          var x :| x in s[1..] && c in Decompose(x);
          assert x in s;
        }
      }
    }
  }

  lemma {:induction false} StripMarksMembers(s: string)
    ensures forall c :: c in StripMarks(s) ==> c in s && !IsCombining(c)
  {
    if s != [] {
      StripMarksMembers(s[1..]);
      assert forall c :: c in s[1..] ==> c in s;
    }
  }

  lemma {:induction false} RemoveCommasMembers(s: string)
    ensures forall c :: c in RemoveCommas(s) ==> c in s && c != ','
  {
    if s != [] {
      RemoveCommasMembers(s[1..]);
      assert forall c :: c in s[1..] ==> c in s;
    }
  }

  /** The words kept are words of the input, and none is a stop word. */
  lemma {:induction false} DropStopWordsMembers(ts: seq<string>)
    ensures forall i :: 0 <= i < |DropStopWords(ts)| ==>
      DropStopWords(ts)[i] in ts && DropStopWords(ts)[i] !in StopWords
  {
    if ts != [] {
      DropStopWordsMembers(ts[1..]);
      var r := DropStopWords(ts);
      var head := if ts[0] in StopWords then [] else [ts[0]];
      assert r == head + DropStopWords(ts[1..]);
      forall i | 0 <= i < |r| ensures r[i] in ts && r[i] !in StopWords {
        if i >= |head| {
          assert r[i] == DropStopWords(ts[1..])[i - |head|];
          assert r[i] in ts[1..];
        }
      }
    }
  }

  /** The text `normalize_name` splits: accents stripped, lower-cased, commas removed. */
  function Folded(s: string): string {
    RemoveCommas(LowerStr(StripMarks(Nfd(s))))
  }

  /** `normalize_name` on a string: the folded words that are not stop words,
      joined by single spaces. */
  function NormalizeText(s: string): string {
    Join(DropStopWords(Split(Folded(s))))
  }

  /** `normalize_name(x)`: anything that is not a string normalises to "". */
  function NormalizeName(v: Value): (r: string)
    ensures !v.Text? ==> r == ""
  {
    match v
    case Text(s) => NormalizeText(s)
    case _ => ""
  }

  /** A character that every step of `normalize_name` leaves alone: no accent,
      no comma, no capital, nothing to decompose. */
  predicate Clean(c: char) {
    !IsCombining(c) && c != ',' && Lower(c) == c && Decompose(c) == [c]
  }

  predicate AllClean(t: string) {
    AllChars(t, Clean)
  }

  /** A base letter produced by the decomposition table, lower-cased, is clean. */
  lemma {:induction false} DecomposedBaseIsClean(x: char, y: char)
    requires y in Decompose(x) && !IsCombining(y) && y != ','
    ensures Clean(Lower(y))
  {
    DecompositionShape(x);
    if Decomposition(x).Some? {
      assert y == Decomposition(x).value.0;
      AsciiLetterIsPlain(Lower(y));
    } else if IsAsciiUpper(y) {
      AsciiLetterIsPlain(Lower(y));
    }
  }

  /** The table maps a letter to an ASCII base letter and a combining mark. */
  lemma {:induction false} DecompositionShape(c: char)
    ensures Decomposition(c).Some? ==>
      IsAsciiLetter(Decomposition(c).value.0) && IsCombining(Decomposition(c).value.1)
  {
  }

  lemma {:induction false} AsciiLetterIsPlain(c: char)
    requires IsAsciiLetter(c)
    ensures Decomposition(c).None?
  {
  }

  lemma {:induction false} FoldedClean(s: string)
    ensures AllClean(Folded(s))
  {
    var stripped := StripMarks(Nfd(s));
    var lowered := LowerStr(stripped);
    NfdMembers(s);
    StripMarksMembers(Nfd(s));
    RemoveCommasMembers(lowered);
    forall k | 0 <= k < |Folded(s)| ensures Clean(Folded(s)[k]) {
      var c := Folded(s)[k];
      assert c in Folded(s);
      assert c in lowered && c != ',';
      var i :| 0 <= i < |lowered| && lowered[i] == c;
      var y := stripped[i];
      assert y in stripped;
      assert y in Nfd(s) && !IsCombining(y);
      var x :| x in s && y in Decompose(x);
      assert y != ',';
      DecomposedBaseIsClean(x, y);
    }
  }

  lemma {:induction false} DropStopWordsKeepsTokens(ts: seq<string>)
    requires forall i :: 0 <= i < |ts| ==> IsToken(ts[i])
    ensures forall i :: 0 <= i < |DropStopWords(ts)| ==> IsToken(DropStopWords(ts)[i])
  {
    var r := DropStopWords(ts);
    DropStopWordsMembers(ts);
    forall i | 0 <= i < |r| ensures IsToken(r[i]) {
      assert r[i] in ts;
    }
  }

  lemma {:induction false} DropStopWordsKeeps(ts: seq<string>, p: char -> bool)
    requires forall i :: 0 <= i < |ts| ==> AllChars(ts[i], p)
    ensures forall i :: 0 <= i < |DropStopWords(ts)| ==> AllChars(DropStopWords(ts)[i], p)
  {
    var r := DropStopWords(ts);
    DropStopWordsMembers(ts);
    forall i | 0 <= i < |r| ensures AllChars(r[i], p) {
      assert r[i] in ts;
    }
  }

  lemma {:induction false} SpaceIsClean()
    ensures Clean(' ')
  {
  }

  /** What `normalize_name` promises of its result: splitting it gives the
      folded words minus the stop words, it holds no comma, no accent and no
      capital, and none of its words is a stop word. */
  lemma {:induction false} NormalizeTextShape(s: string)
    ensures Split(NormalizeText(s)) == DropStopWords(Split(Folded(s)))
    ensures AllClean(NormalizeText(s))
    ensures forall i :: 0 <= i < |Split(NormalizeText(s))| ==> Split(NormalizeText(s))[i] !in StopWords
  {
    var ws := DropStopWords(Split(Folded(s)));
    SplitTokens(Folded(s));
    DropStopWordsKeepsTokens(Split(Folded(s)));
    SplitJoin(ws);
    FoldedClean(s);
    SplitAllChars(Folded(s), Clean);
    DropStopWordsKeeps(Split(Folded(s)), Clean);
    SpaceIsClean();
    JoinAllChars(ws, Clean);
    DropStopWordsMembers(Split(Folded(s)));
  }

  lemma {:induction false} CleanNfd(t: string)
    requires AllClean(t)
    ensures Nfd(t) == t
  {
    if t != [] {
      assert Clean(t[0]);
      CleanNfd(t[1..]);
      assert t == [t[0]] + t[1..];
    }
  }

  lemma {:induction false} CleanStripMarks(t: string)
    requires AllClean(t)
    ensures StripMarks(t) == t
  {
    if t != [] {
      assert Clean(t[0]);
      CleanStripMarks(t[1..]);
      assert t == [t[0]] + t[1..];
    }
  }

  lemma {:induction false} CleanLower(t: string)
    requires AllClean(t)
    ensures LowerStr(t) == t
  {
  }

  lemma {:induction false} CleanRemoveCommas(t: string)
    requires AllClean(t)
    ensures RemoveCommas(t) == t
  {
    if t != [] {
      assert Clean(t[0]);
      CleanRemoveCommas(t[1..]);
      assert t == [t[0]] + t[1..];
    }
  }

  lemma {:induction false} NoStopWords(ws: seq<string>)
    requires forall i :: 0 <= i < |ws| ==> ws[i] !in StopWords
    ensures DropStopWords(ws) == ws
  {
    if ws != [] {
      NoStopWords(ws[1..]);
      assert ws == [ws[0]] + ws[1..];
    }
  }

  /** Normalising a normalised name changes nothing. */
  lemma {:induction false} NormalizeIdempotent(s: string)
    ensures NormalizeText(NormalizeText(s)) == NormalizeText(s)
  {
    var t := NormalizeText(s);
    NormalizeTextShape(s);
    CleanNfd(t);
    CleanStripMarks(t);
    CleanLower(t);
    CleanRemoveCommas(t);
    assert Folded(t) == t;
    NoStopWords(Split(t));
    SplitTokens(t);
    SplitJoin(Split(t));
  }

  lemma {:induction false} NormalizeNameIdempotent(v: Value)
    ensures NormalizeName(Text(NormalizeName(v))) == NormalizeName(v)
  {
    match v
    case Text(s) => NormalizeIdempotent(s);
    case _ => assert NormalizeText("") == "";
  }

  // ---------------------------------------------------------------------------
  // Token overlap and the row scan
  // ---------------------------------------------------------------------------

  /** The tokens of a normalised name, as a set (`set(normalize_name(s).split())`). */
  function TokenSet(s: string): set<string> {
    set t | t in Split(s)
  }

  /** `len(canvas_parts.intersection(dest_parts))` for a destination cell text. */
  function Overlap(parts: set<string>, text: string): nat {
    |parts * TokenSet(NormalizeText(text))|
  }

  /** Shared tokens are counted once: the overlap is at most the number of
      distinct tokens on either side. */
  lemma {:induction false} OverlapBounds(parts: set<string>, text: string)
    ensures Overlap(parts, text) <= |parts|
    ensures Overlap(parts, text) <= |TokenSet(NormalizeText(text))|
  {
    var other := TokenSet(NormalizeText(text));
    CardinalityOfSubset(parts * other, parts);
    CardinalityOfSubset(parts * other, other);
  }

  lemma {:induction false} CardinalityOfSubset<T>(a: set<T>, b: set<T>)
    requires a <= b
    ensures |a| <= |b|
  {
    assert b == a + (b - a);
  }

  /** A scanned row: its number and its name, or `None` when the cell is skipped. */
  datatype Candidate = Candidate(row: int, name: Option<string>)

  /** `len(canvas_parts.intersection(dest_parts))` as a scoring function of the cell text. */
  function OverlapWith(parts: set<string>): string -> nat {
    text => Overlap(parts, text)
  }

  function Score(score: string -> nat, c: Candidate): Option<nat> {
    match c.name
    case Some(t) => Some(score(t))
    case None => None
  }

  /** The score of each candidate; `None` for skipped cells. */
  function Scores(score: string -> nat, cands: seq<Candidate>): (s: seq<Option<nat>>)
    ensures |s| == |cands|
    ensures forall i :: 0 <= i < |cands| ==> s[i] == Score(score, cands[i])
  {
    seq(|cands|, i requires 0 <= i < |cands| => Score(score, cands[i]))
  }

  /** The running best of the scan: the candidate index and score of `best_match`. */
  datatype Best = Best(index: Option<nat>, score: int)

  /** The best match after the first `k` candidates; a strictly higher score
      replaces it, so ties keep the earlier row. */
  function ScanUpTo(scores: seq<Option<nat>>, k: nat): (b: Best)
    requires k <= |scores|
    ensures b.index.Some? ==> b.index.value < k
  {
    if k == 0 then Best(None, -1)
    else
      var b := ScanUpTo(scores, k - 1);
      match scores[k - 1]
      case None => b
      case Some(common) => if common > b.score then Best(Some(k - 1), common) else b
  }

  function Scan(scores: seq<Option<nat>>): Best {
    ScanUpTo(scores, |scores|)
  }

  /** Candidate `i` is scored, no candidate before `k` scores more, and every
      earlier candidate scores strictly less. */
  ghost predicate FirstBest(scores: seq<Option<nat>>, k: nat, i: int)
    requires k <= |scores|
  {
    && 0 <= i < k
    && scores[i].Some?
    && (forall j :: 0 <= j < k && scores[j].Some? ==> scores[j].value <= scores[i].value)
    && (forall j :: 0 <= j < i && scores[j].Some? ==> scores[j].value < scores[i].value)
  }

  /** The scan keeps exactly the first candidate of highest score, and keeps
      nothing when every cell was skipped. */
  lemma {:induction false} ScanFindsFirstBest(scores: seq<Option<nat>>, k: nat)
    requires k <= |scores|
    ensures var b := ScanUpTo(scores, k);
      && (b.index.None? <==> forall j :: 0 <= j < k ==> scores[j].None?)
      && (b.index.None? ==> b.score == -1)
      && (b.index.Some? ==> FirstBest(scores, k, b.index.value) && b.score == scores[b.index.value].value)
  {
    if k > 0 {
      ScanFindsFirstBest(scores, k - 1);
    }
  }

  /** At most one candidate is the first of highest score. */
  lemma {:induction false} FirstBestUnique(scores: seq<Option<nat>>, k: nat, i: int, i': int)
    requires k <= |scores|
    requires FirstBest(scores, k, i) && FirstBest(scores, k, i')
    ensures i == i'
  {
  }

  /** The whole scan: it keeps a candidate exactly when one was scored, and the
      candidate it keeps is the unique first one of highest score. */
  lemma {:induction false} ScanOutcome(scores: seq<Option<nat>>)
    ensures var b := Scan(scores);
      && (b.index.None? <==> forall j :: 0 <= j < |scores| ==> scores[j].None?)
      && (forall i :: FirstBest(scores, |scores|, i) <==> b.index == Some(i))
      && (b.index.Some? ==> b.score == scores[b.index.value].value)
      && (b.index.None? ==> b.score == -1)
  {
    ScanFindsFirstBest(scores, |scores|);
    var b := Scan(scores);
    forall i | FirstBest(scores, |scores|, i) ensures b.index == Some(i) {
      FirstBestUnique(scores, |scores|, i, b.index.value);
    }
  }

  /** The decision rule: two shared tokens, or both names short and one shared. */
  predicate Accepts(targetCount: int, bestCount: int, score: int) {
    score >= 2 || (targetCount <= 2 && bestCount <= 2 && score >= 1)
  }

  function RowOf(cands: seq<Candidate>, b: Best): Option<int>
    requires b.index.Some? ==> b.index.value < |cands|
  {
    if b.index.Some? then Some(cands[b.index.value].row) else None
  }

  // ---------------------------------------------------------------------------
  // find_match_in_excel
  // ---------------------------------------------------------------------------

  /** The column the short-name rule re-reads, whatever column was scanned. */
  const ShortNameColumn: Pos := 3  // column "C"

  /** The only failure of the workbook matcher: reading `sheet["CNone"]`. */
  datatype MatchError = InvalidCoordinate

  /** Row `row` of column `col`; a falsy cell is skipped, any other is read as `str(value)`. */
  function ExcelCandidate(ws: Worksheet, col: int, row: int): Candidate {
    var v := CellAt(ws, row, col);
    Candidate(row, if Truthy(v) then Some(Str(v)) else None)
  }

  /** Rows `start..end` of column `col`. */
  function ExcelCandidates(ws: Worksheet, col: int, start: int, end: int): (c: seq<Candidate>)
    ensures |c| == if end < start then 0 else end - start + 1
    ensures forall i :: 0 <= i < |c| ==> c[i] == ExcelCandidate(ws, col, start + i)
  {
    var n := if end < start then 0 else end - start + 1;
    seq(n, i requires 0 <= i < n => ExcelCandidate(ws, col, start + i))
  }

  /** The number of words of the normalised column C cell on each row. */
  function ShortCounts(ws: Worksheet): int -> nat {
    row => |Split(NormalizeName(CellAt(ws, row, ShortNameColumn)))|
  }

  /** What `find_match_in_excel` returns. */
  function ExcelMatch(ws: Worksheet, name: Value, col: string, start: int, end: int): Result<Option<int>, MatchError>
    requires IsColumnName(col)
  {
    var parts := TokenSet(NormalizeName(name));
    ExcelDecide(ws, parts, OverlapWith(parts), ShortCounts(ws), ColumnIndex(col), start, end)
  }

  /** `find_match_in_excel` once the target tokens `parts`, the scoring of a
      cell text and the column C word counts are fixed. */
  function ExcelDecide(ws: Worksheet, parts: set<string>, score: string -> nat, shortCount: int -> nat,
                       colIdx: int, start: int, end: int): Result<Option<int>, MatchError>
  {
    if parts == {} then Ok(None)
    else
      var cands := ExcelCandidates(ws, colIdx, start, end);
      var b := Scan(Scores(score, cands));
      match RowOf(cands, b)
      case None =>
        if |parts| <= 2 then Err(InvalidCoordinate) else Ok(None)
      case Some(row) =>
        if Accepts(|parts|, shortCount(row), b.score) then Ok(Some(row)) else Ok(None)
  }

  /** The loop of `find_match_in_excel` over rows `start..end` of column `colIdx`. */
  method ScanExcelRows(ws: Worksheet, score: string -> nat, colIdx: int, start: int, end: int)
    returns (bestRow: Option<int>, bestScore: int)
    ensures var cands := ExcelCandidates(ws, colIdx, start, end);
      var b := Scan(Scores(score, cands));
      bestScore == b.score && bestRow == RowOf(cands, b)
  {
    ghost var cands := ExcelCandidates(ws, colIdx, start, end);
    ghost var scores := Scores(score, cands);
    bestRow := None;
    bestScore := -1;
    var rowIdx := start;
    while rowIdx <= end
      invariant start <= rowIdx && rowIdx - start <= |cands|
      invariant end >= start ==> rowIdx <= end + 1
      invariant bestScore == ScanUpTo(scores, rowIdx - start).score
      invariant bestRow == RowOf(cands, ScanUpTo(scores, rowIdx - start))
    {
      var cellValue := CellAt(ws, rowIdx, colIdx);
      assert scores[rowIdx - start] == Score(score, ExcelCandidate(ws, colIdx, rowIdx));
      if Truthy(cellValue) {
        var common := score(Str(cellValue));
        if common > bestScore {
          bestScore := common;
          bestRow := Some(rowIdx);
        }
      }
      rowIdx := rowIdx + 1;
    }
    assert rowIdx - start == |cands|;
  }

  method FindMatchInExcel(ws: Worksheet, name: Value, col: string, start: int, end: int)
    returns (r: Result<Option<int>, MatchError>)
    requires IsColumnName(col)
    ensures r == ExcelMatch(ws, name, col, start, end)
  {
    var parts := TokenSet(NormalizeName(name));
    if parts == {} {
      return Ok(None);
    }
    var bestRow, bestScore := ScanExcelRows(ws, OverlapWith(parts), ColumnIndex(col), start, end);
    if bestRow.None? {
      if |parts| <= 2 {
        return Err(InvalidCoordinate);
      }
      return Ok(None);
    }
    var shortRow := |Split(NormalizeName(CellAt(ws, bestRow.value, ShortNameColumn)))|;
    assert shortRow == ShortCounts(ws)(bestRow.value);
    if bestScore >= 2 || (|parts| <= 2 && shortRow <= 2 && bestScore >= 1) {
      return Ok(Some(bestRow.value));
    }
    return Ok(None);
  }

  /** `find_match_in_excel` fails (reading `sheet["CNone"]`) exactly when the
      target has one or two tokens and every cell of the range is empty. */
  lemma {:induction false} ExcelFailsOnlyOnEmptyRange(ws: Worksheet, parts: set<string>, score: string -> nat, shortCount: int -> nat,
                                   colIdx: int, start: int, end: int)
    ensures ExcelDecide(ws, parts, score, shortCount, colIdx, start, end) == Err(InvalidCoordinate) <==>
      parts != {} && |parts| <= 2 && forall row :: start <= row <= end ==> !Truthy(CellAt(ws, row, colIdx))
  {
    var cands := ExcelCandidates(ws, colIdx, start, end);
    var scores := Scores(score, cands);
    ScanOutcome(scores);
    if forall row :: start <= row <= end ==> !Truthy(CellAt(ws, row, colIdx)) {
      forall j | 0 <= j < |scores| ensures scores[j].None? {
        assert !Truthy(CellAt(ws, start + j, colIdx));
      }
    } else {
      var row :| start <= row <= end && Truthy(CellAt(ws, row, colIdx));
      assert scores[row - start].Some?;
    }
  }

  /** A row `find_match_in_excel` returns lies in `start..end`, holds a
      non-empty cell, and is the first of highest score; without target tokens
      nothing is returned. */
  lemma {:induction false} ExcelMatchIsFirstBest(ws: Worksheet, parts: set<string>, score: string -> nat, shortCount: int -> nat,
                              colIdx: int, start: int, end: int, row: int)
    requires ExcelDecide(ws, parts, score, shortCount, colIdx, start, end) == Ok(Some(row))
    ensures parts != {} && start <= row <= end && Truthy(CellAt(ws, row, colIdx))
    ensures var scores := Scores(score, ExcelCandidates(ws, colIdx, start, end));
      FirstBest(scores, |scores|, row - start)
  {
    var scores := Scores(score, ExcelCandidates(ws, colIdx, start, end));
    ScanOutcome(scores);
  }

  /** The first row of highest score is returned exactly when the decision rule
      accepts it, counting the words of column C on that row. */
  lemma {:induction false} ExcelAcceptance(ws: Worksheet, parts: set<string>, score: string -> nat, shortCount: int -> nat,
                        colIdx: int, start: int, end: int, i: int)
    requires parts != {}
    requires var scores := Scores(score, ExcelCandidates(ws, colIdx, start, end));
      FirstBest(scores, |scores|, i)
    ensures var scores := Scores(score, ExcelCandidates(ws, colIdx, start, end));
      ExcelDecide(ws, parts, score, shortCount, colIdx, start, end) == Ok(Some(start + i)) <==>
      Accepts(|parts|, shortCount(start + i), scores[i].value)
  {
    var scores := Scores(score, ExcelCandidates(ws, colIdx, start, end));
    ScanOutcome(scores);
  }

  // ---------------------------------------------------------------------------
  // find_match_in_gsheet
  // ---------------------------------------------------------------------------

  /** A row of the grid: skipped when it is too short for `colIdx` or empty there. */
  function GsheetCandidate(rowData: seq<string>, colIdx: nat, row: int): Candidate {
    Candidate(row, if colIdx < |rowData| && rowData[colIdx] != "" then Some(rowData[colIdx]) else None)
  }

  /** The rows of `sheet_data[start_row - 1:end_row]`, numbered from `start_row`. */
  function GsheetCandidates(data: seq<seq<string>>, colIdx: nat, start: int, end: int): (c: seq<Candidate>)
    ensures |c| == |PySlice(data, start - 1, end)|
    ensures forall i :: 0 <= i < |c| ==> c[i] == GsheetCandidate(PySlice(data, start - 1, end)[i], colIdx, start + i)
  {
    var rows := PySlice(data, start - 1, end);
    seq(|rows|, i requires 0 <= i < |rows| => GsheetCandidate(rows[i], colIdx, start + i))
  }

  /** The number of words of a normalised name. */
  function WordCount(t: string): nat {
    |Split(NormalizeText(t))|
  }

  /** What `find_match_in_gsheet` returns. */
  function GsheetMatch(data: seq<seq<string>>, name: Value, colIdx: nat, start: int, end: int): Option<int> {
    var parts := TokenSet(NormalizeName(name));
    GsheetDecide(parts, OverlapWith(parts), WordCount, GsheetCandidates(data, colIdx, start, end))
  }

  /** `best_match['name']`: the text of the kept candidate, "" while there is none. */
  function BestName(cands: seq<Candidate>, b: Best): string
    requires b.index.Some? ==> b.index.value < |cands|
  {
    if b.index.None? then ""
    else match cands[b.index.value].name
      case Some(t) => t
      case None => ""
  }

  /** `find_match_in_gsheet` once the target tokens, the scoring of a cell text
      and the word count of the best name are fixed. */
  function GsheetDecide(parts: set<string>, score: string -> nat, count: string -> nat, cands: seq<Candidate>): Option<int> {
    if parts == {} then None
    else
      var b := Scan(Scores(score, cands));
      if Accepts(|parts|, count(BestName(cands, b)), b.score) then RowOf(cands, b) else None
  }

  method FindMatchInGsheet(data: seq<seq<string>>, name: Value, colIdx: nat, start: int, end: int)
    returns (r: Option<int>)
    ensures r == GsheetMatch(data, name, colIdx, start, end)
  {
    var parts := TokenSet(NormalizeName(name));
    if parts == {} {
      return None;
    }
    var bestRow, bestScore, bestName := ScanGsheetRows(data, OverlapWith(parts), colIdx, start, end);
    var bestCount := |Split(NormalizeText(bestName))|;
    GsheetDecideFromScan(parts, OverlapWith(parts), WordCount, GsheetCandidates(data, colIdx, start, end), bestRow, bestScore, bestName);
    assert bestCount == WordCount(bestName);
    if bestScore >= 2 || (|parts| <= 2 && bestCount <= 2 && bestScore >= 1) {
      return bestRow;
    }
    return None;
  }

  /** The decision read off from what the scan kept. */
  lemma {:induction false} GsheetDecideFromScan(parts: set<string>, score: string -> nat, count: string -> nat, cands: seq<Candidate>,
                             bestRow: Option<int>, bestScore: int, bestName: string)
    requires parts != {}
    requires var b := Scan(Scores(score, cands));
      bestScore == b.score && bestRow == RowOf(cands, b) && bestName == BestName(cands, b)
    ensures GsheetDecide(parts, score, count, cands) == if Accepts(|parts|, count(bestName), bestScore) then bestRow else None
  {
  }

  /** The loop of `find_match_in_gsheet`, which also remembers the best name. */
  method ScanGsheetRows(data: seq<seq<string>>, score: string -> nat, colIdx: nat, start: int, end: int)
    returns (bestRow: Option<int>, bestScore: int, bestName: string)
    ensures var cands := GsheetCandidates(data, colIdx, start, end);
      var b := Scan(Scores(score, cands));
      bestScore == b.score && bestRow == RowOf(cands, b) && bestName == BestName(cands, b)
  {
    var rows := PySlice(data, start - 1, end);
    ghost var cands := GsheetCandidates(data, colIdx, start, end);
    ghost var scores := Scores(score, cands);
    bestRow := None;
    bestScore := -1;
    bestName := "";
    var i := 0;
    while i < |rows|
      invariant 0 <= i <= |rows|
      invariant bestScore == ScanUpTo(scores, i).score
      invariant bestRow == RowOf(cands, ScanUpTo(scores, i))
      invariant bestName == BestName(cands, ScanUpTo(scores, i))
    {
      var rowData := rows[i];
      var currentRowIdx := i + start;
      assert scores[i] == Score(score, GsheetCandidate(rowData, colIdx, currentRowIdx));
      if |rowData| > colIdx && rowData[colIdx] != "" {
        var cellValue := rowData[colIdx];
        var common := score(cellValue);
        if common > bestScore {
          bestScore := common;
          bestRow := Some(currentRowIdx);
          bestName := cellValue;
        }
      }
      i := i + 1;
    }
  }

  /** A row `find_match_in_gsheet` returns lies in `start..end` and inside the
      data, has a non-empty name at `colIdx`, and is the first of highest score
      among the scanned rows; without target tokens nothing is returned. */
  lemma {:induction false} GsheetMatchIsFirstBest(parts: set<string>, score: string -> nat, count: string -> nat,
                               data: seq<seq<string>>, colIdx: nat, start: int, end: int, row: int)
    requires start >= 1 && end >= 0
    requires GsheetDecide(parts, score, count, GsheetCandidates(data, colIdx, start, end)) == Some(row)
    ensures parts != {} && start <= row <= end && row <= |data|
    ensures colIdx < |data[row - 1]| && data[row - 1][colIdx] != ""
    ensures var scores := Scores(score, GsheetCandidates(data, colIdx, start, end));
      FirstBest(scores, |scores|, row - start)
  {
    var cands := GsheetCandidates(data, colIdx, start, end);
    var scores := Scores(score, cands);
    ScanOutcome(scores);
    var i := Scan(scores).index.value;
    SliceRow(data, start, end, i);
  }

  /** Entry `i` of `sheet_data[start_row - 1:end_row]` is sheet row `start_row + i`. */
  lemma {:induction false} SliceRow(data: seq<seq<string>>, start: int, end: int, i: int)
    requires start >= 1 && end >= 0 && 0 <= i < |PySlice(data, start - 1, end)|
    ensures start + i <= end && start + i <= |data|
    ensures PySlice(data, start - 1, end)[i] == data[start - 1 + i]
  {
    var rows := PySlice(data, start - 1, end);
    assert rows == data[start - 1..SliceBound(|data|, end)];
  }

  /** The first row of highest score is returned exactly when the decision rule
      accepts it, counting the words of that row's name. */
  lemma {:induction false} GsheetAcceptance(parts: set<string>, score: string -> nat, count: string -> nat, cands: seq<Candidate>, i: int)
    requires parts != {}
    requires FirstBest(Scores(score, cands), |cands|, i)
    ensures GsheetDecide(parts, score, count, cands) == Some(cands[i].row) <==>
      Accepts(|parts|, count(cands[i].name.value), Scores(score, cands)[i].value)
  {
    ScanOutcome(Scores(score, cands));
  }
}
