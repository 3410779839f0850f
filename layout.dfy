/** The layout vocabulary shared by every version of the activity mapper:
    the task-label pattern `(TAREA|ACTIVIDAD)\s*(\d+)` searched case-insensitively,
    the period names "1er Trimestre", "2do Trimestre", ..., the tasks of one
    header block (label -> column letters, the rightmost column winning), and
    the assembly of the period list from the blocks in order. */
module Layout {
  import opened Wrappers
  import opened PyText
  import opened Sheets

  // ---------------------------------------------------------------------------
  // The task-label pattern

  /** The lower-case keyword `kw` occurs at `i`, ignoring ASCII case. */
  predicate KeywordAt(s: string, i: nat, kw: string) {
    i + |kw| <= |s| && forall k :: 0 <= k < |kw| ==> Lower(s[i + k]) == kw[k]
  }

  /** The length of the keyword (`TAREA` or `ACTIVIDAD`) at `i`, 0 when there is none. */
  function KeywordLength(s: string, i: nat): (k: nat)
    ensures k == 0 || i + k <= |s|
  {
    if KeywordAt(s, i, "tarea") then 5
    else if KeywordAt(s, i, "actividad") then 9
    else 0
  }

  /** The end of the run of whitespace (`\s*`) that starts at `i`. */
  function SpacesEnd(s: string, i: nat): (j: nat)
    requires i <= |s|
    ensures i <= j <= |s|
    decreases |s| - i
  {
    if i < |s| && IsSpace(s[i]) then SpacesEnd(s, i + 1) else i
  }

  /** The end of the run of decimal digits that starts at `i` (`\d+` takes
      all of it, without backtracking to a shorter run). */
  function DigitsEnd(s: string, i: nat): (j: nat)
    requires i <= |s|
    ensures i <= j <= |s|
    decreases |s| - i
  {
    if i < |s| && IsDigit(s[i]) then DigitsEnd(s, i + 1) else i
  }

  /** A digit run holds digits only, and stops at a non-digit or the end. */
  lemma {:induction false} DigitsEndFacts(s: string, i: nat)
    requires i <= |s|
    ensures forall k :: i <= k < DigitsEnd(s, i) ==> IsDigit(s[k])
    ensures DigitsEnd(s, i) < |s| ==> !IsDigit(s[DigitsEnd(s, i)])
    decreases |s| - i
  {
    if i < |s| && IsDigit(s[i]) {
      DigitsEndFacts(s, i + 1);
    }
  }

  /** Both runs read the same inside a longer text. */
  lemma {:induction false} RunsShift(p: string, s: string, i: nat)
    requires i <= |s|
    ensures SpacesEnd(p + s, |p| + i) == |p| + SpacesEnd(s, i)
    ensures DigitsEnd(p + s, |p| + i) == |p| + DigitsEnd(s, i)
    decreases |s| - i
  {
    var t := p + s;
    if i < |s| {
      assert t[|p| + i] == s[i];
      RunsShift(p, s, i + 1);
    }
  }

  /** Group 2 of the pattern when a match starts at `i`.  Backtracking cannot
      help: `\s*` gives back only whitespace, and `\d+` needs a digit. */
  function MatchAt(s: string, i: nat): Option<string>
    requires i <= |s|
  {
    var k := KeywordLength(s, i);
    if k == 0 then None
    else
      var j := SpacesEnd(s, i + k);
      var e := DigitsEnd(s, j);
      if e == j then None else Some(s[j..e])
  }

  /** A group is a non-empty run of digits. */
  lemma {:induction false} MatchAtDigits(s: string, i: nat)
    requires i <= |s| && MatchAt(s, i).Some?
    ensures MatchAt(s, i).value != [] && forall k :: 0 <= k < |MatchAt(s, i).value| ==> IsDigit(MatchAt(s, i).value[k])
  {
    var j := SpacesEnd(s, i + KeywordLength(s, i));
    DigitsEndFacts(s, j);
    var d := MatchAt(s, i).value;
    forall k | 0 <= k < |d| ensures IsDigit(d[k]) {
      assert d[k] == s[j + k];
    }
  }

  /** The first `j` in `i .. n` with `p(j)`. */
  function FirstFrom(p: int -> bool, i: int, n: int): (r: Option<int>)
    ensures r.Some? ==> i <= r.value <= n && p(r.value)
    decreases n - i
  {
    if i > n then None
    else if p(i) then Some(i)
    else FirstFrom(p, i + 1, n)
  }

  lemma {:induction false} FirstFromLeftmost(p: int -> bool, i: int, n: int)
    ensures FirstFrom(p, i, n).Some? ==> forall j :: i <= j < FirstFrom(p, i, n).value ==> !p(j)
    ensures FirstFrom(p, i, n).None? ==> forall j :: i <= j <= n ==> !p(j)
    decreases n - i
  {
    if i <= n && !p(i) {
      FirstFromLeftmost(p, i + 1, n);
    }
  }

  /** The first group that `m` yields at a position in `0 .. n`. */
  function Leftmost(m: int -> Option<string>, n: int): (r: Option<string>)
    ensures r.Some? ==> exists i :: 0 <= i <= n && m(i) == r
  {
    match FirstFrom(j => m(j).Some?, 0, n)
    case None => None
    case Some(i) => m(i)
  }

  lemma {:induction false} LeftmostIs(m: int -> Option<string>, n: int, i: int)
    requires 0 <= i <= n && m(i).Some?
    requires forall j :: 0 <= j < i ==> m(j).None?
    ensures Leftmost(m, n) == m(i)
  {
    var p := j => m(j).Some?;
    FirstFromLeftmost(p, 0, n);
    assert p(i);
  }

  lemma {:induction false} LeftmostNone(m: int -> Option<string>, n: int)
    ensures Leftmost(m, n).None? <==> forall j :: 0 <= j <= n ==> m(j).None?
  {
    var p := j => m(j).Some?;
    FirstFromLeftmost(p, 0, n);
    if Leftmost(m, n).None? {
      forall j | 0 <= j <= n ensures m(j).None? {
        assert !p(j);
      }
    }
  }

  /** The group of a match starting at each position of `text`. */
  function MatchesOf(text: string): int -> Option<string> {
    j => if 0 <= j <= |text| then MatchAt(text, j) else None
  }

  /** The task a cell names: `re.search` takes the leftmost match, and the
      label is "TAREA " followed by its digits. */
  function TaskLabel(text: string): Option<string> {
    match Leftmost(MatchesOf(text), |text|)
    case None => None
    case Some(d) => Some("TAREA " + d)
  }

  /** A label is "TAREA " followed by one or more digits. */
  lemma {:induction false} TaskLabelShape(text: string)
    requires TaskLabel(text).Some?
    ensures |TaskLabel(text).value| > 6 && TaskLabel(text).value[..6] == "TAREA "
    ensures forall k :: 6 <= k < |TaskLabel(text).value| ==> IsDigit(TaskLabel(text).value[k])
  {
    var d := Leftmost(MatchesOf(text), |text|).value;
    var i :| 0 <= i <= |text| && MatchesOf(text)(i) == Some(d);
    assert MatchAt(text, i) == Some(d);
    MatchAtDigits(text, i);
    var r := "TAREA " + d;
    forall k | 6 <= k < |r| ensures IsDigit(r[k]) {
      assert r[k] == d[k - 6];
    }
  }

  /** A cell yields a task exactly when the pattern matches somewhere in it. */
  lemma {:induction false} TaskLabelFound(text: string)
    ensures TaskLabel(text).Some? <==> exists i :: 0 <= i <= |text| && MatchAt(text, i).Some?
  {
    var m := MatchesOf(text);
    LeftmostNone(m, |text|);
    forall j | 0 <= j <= |text| ensures m(j) == MatchAt(text, j) {
    }
  }

  /** An empty cell text names no task. */
  lemma {:induction false} TaskLabelEmpty()
    ensures TaskLabel("") == None
  {
    var m := MatchesOf("");
    assert m(0) == MatchAt("", 0) == None;
    LeftmostNone(m, 0);
  }

  /** The label comes from the leftmost position where the pattern matches. */
  lemma {:induction false} TaskLabelLeftmost(text: string, i: nat)
    requires i <= |text| && MatchAt(text, i).Some?
    requires forall j :: 0 <= j < i ==> MatchAt(text, j).None?
    ensures TaskLabel(text) == Some("TAREA " + MatchAt(text, i).value)
  {
    var m := MatchesOf(text);
    forall j | 0 <= j < i ensures m(j).None? {
      assert m(j) == MatchAt(text, j);
    }
    assert m(i) == MatchAt(text, i);
    LeftmostIs(m, |text|, i);
  }

  /** A cell that starts with `TAREA` or `ACTIVIDAD`, in any mix of case,
      followed by optional whitespace and digits, is labelled "TAREA"
      followed by those digits exactly as written. */
  lemma {:induction false} TaskLabelOfKeyword(kw: string, rest: string)
    requires LowerStr(kw) == "tarea" || LowerStr(kw) == "actividad"
    requires DigitsEnd(rest, SpacesEnd(rest, 0)) > SpacesEnd(rest, 0)
    ensures TaskLabel(kw + rest) == Some("TAREA " + rest[SpacesEnd(rest, 0)..DigitsEnd(rest, SpacesEnd(rest, 0))])
  {
    KeywordAtStart(kw, rest);
    MatchAtKeyword(kw, rest);
    TaskLabelLeftmost(kw + rest, 0);
  }

  /** The pattern matches at the start of such a cell, with those digits. */
  lemma {:induction false} MatchAtKeyword(kw: string, rest: string)
    requires |kw| > 0 && KeywordLength(kw + rest, 0) == |kw|
    requires DigitsEnd(rest, SpacesEnd(rest, 0)) > SpacesEnd(rest, 0)
    ensures MatchAt(kw + rest, 0) == Some(rest[SpacesEnd(rest, 0)..DigitsEnd(rest, SpacesEnd(rest, 0))])
  {
    var t := kw + rest;
    var j := SpacesEnd(rest, 0);
    var e := DigitsEnd(rest, j);
    RunsShift(kw, rest, 0);
    RunsShift(kw, rest, j);
    MatchAtRuns(t, 0, |kw| + j, |kw| + e);
    SliceAfter(kw, rest, j, e);
  }

  lemma {:induction false} SliceAfter(p: string, s: string, a: nat, b: nat)
    requires a <= b <= |s|
    ensures (p + s)[|p| + a..|p| + b] == s[a..b]
  {
    var t := p + s;
    forall k | 0 <= k < b - a ensures t[|p| + a..|p| + b][k] == s[a..b][k] {
      assert t[|p| + a + k] == s[a + k];
    }
  }

  /** A match read off from where its runs end. */
  lemma {:induction false} MatchAtRuns(s: string, i: nat, j: nat, e: nat)
    requires i + KeywordLength(s, i) <= |s| && KeywordLength(s, i) > 0
    requires SpacesEnd(s, i + KeywordLength(s, i)) == j && j <= |s| && DigitsEnd(s, j) == e && j < e
    ensures e <= |s| && MatchAt(s, i) == Some(s[j..e])
  {
  }

  lemma {:induction false} KeywordAtStart(kw: string, rest: string)
    requires LowerStr(kw) == "tarea" || LowerStr(kw) == "actividad"
    ensures KeywordLength(kw + rest, 0) == |kw|
  {
    var t, lk := kw + rest, LowerStr(kw);
    KeywordPrefix(kw, rest);
    assert |lk| == |kw|;
    if lk == "actividad" {
      assert lk[0] == 'a';
      assert Lower(t[0]) == lk[0];
      assert !KeywordAt(t, 0, "tarea") by {
        assert "tarea"[0] == 't';
      }
    }
  }

  lemma {:induction false} KeywordPrefix(kw: string, rest: string)
    ensures KeywordAt(kw + rest, 0, LowerStr(kw))
  {
    var t := kw + rest;
    forall k | 0 <= k < |kw| ensures Lower(t[k]) == LowerStr(kw)[k] {
      assert t[k] == kw[k];
    }
  }

  // ---------------------------------------------------------------------------
  // Period names

  const KnownPeriods: seq<string> := ["1er Trimestre", "2do Trimestre", "3er Trimestre"]

  /** The name of the `i`-th header block (counting from 0). */
  function PeriodName(i: nat): string {
    if i < |KnownPeriods| then KnownPeriods[i] else Decimal(i + 1) + "to Trimestre"
  }

  /** Distinct blocks get distinct names. */
  lemma {:induction false} PeriodNameInjective(i: nat, j: nat)
    requires PeriodName(i) == PeriodName(j)
    ensures i == j
  {
    var sfx := "to Trimestre";
    if i >= 3 && j >= 3 {
      var a, b := Decimal(i + 1), Decimal(j + 1);
      assert |a| == |b|;
      assert a == (a + sfx)[..|a|] == (b + sfx)[..|b|] == b;
      DecimalInjective(i + 1, j + 1);
    } else if i >= 3 {
      NamedPeriodNotNumbered(j, i);
    } else if j >= 3 {
      NamedPeriodNotNumbered(i, j);
    }
  }

  lemma {:induction false} NamedPeriodNotNumbered(i: nat, j: nat)
    requires i < 3 <= j
    ensures PeriodName(i) != PeriodName(j)
  {
    var d := Decimal(j + 1);
    var n := d + "to Trimestre";
    if |d| == 1 {
      assert n[1] == 't';
      assert PeriodName(i)[1] != 't';
    } else {
      assert |n| >= 14;
    }
  }

  lemma {:induction false} PeriodNameExamples()
    ensures PeriodName(0) == "1er Trimestre" && PeriodName(2) == "3er Trimestre"
    ensures PeriodName(3) == "4to Trimestre"
  {
    assert Decimal(4) == [Digit(4)] == "4";
  }

  // ---------------------------------------------------------------------------
  // Tasks of one block

  /** A header block's column span, both ends included. */
  datatype Block = Block(minCol: int, maxCol: int)

  /** One entry of the mapper's result: `trimestre_name` and `tasks`. */
  datatype Period = Period(name: string, tasks: map<string, string>)

  /** The `ValueError`s the mappers raise (and `KeyError` for a missing sheet). */
  datatype LayoutError = MissingSheet | TooFewRows | NoHeader | NoActivities

  /** The tasks found while scanning columns `lo .. hi - 1` left to right: the
      label of column `c` (if any) maps to the letters of column `c + offset`,
      a later column overwriting an earlier one. */
  function BlockTasks(taskAt: int -> Option<string>, offset: int, lo: int, hi: int): map<string, string>
    requires lo + offset >= 1
    decreases hi - lo
  {
    if hi <= lo then map[]
    else
      var m := BlockTasks(taskAt, offset, lo, hi - 1);
      match taskAt(hi - 1)
      case None => m
      case Some(l) => m[l := ColumnLetter(hi - 1 + offset)]
  }

  /** The column loop shared by every mapper: for each column `lo .. hi - 1`
      read its label, if any, and map it to the letters of the column moved
      by `offset`, a later column overwriting an earlier one. */
  method ScanColumns(taskAt: int -> Option<string>, offset: int, lo: int, hi: int) returns (tasks: map<string, string>)
    requires lo + offset >= 1
    ensures tasks == BlockTasks(taskAt, offset, lo, hi)
  {
    tasks := map[];
    var colIdx := lo;
    while colIdx < hi
      invariant lo <= colIdx && (colIdx <= hi || colIdx == lo)
      invariant tasks == BlockTasks(taskAt, offset, lo, colIdx)
    {
      var found := taskAt(colIdx);
      if found.Some? {
        tasks := tasks[found.value := ColumnLetter(colIdx + offset)];
      }
      colIdx := colIdx + 1;
    }
  }

  /** A label is a task of the block exactly when some column of the block carries it. */
  lemma {:induction false} BlockTasksKeys(taskAt: int -> Option<string>, offset: int, lo: int, hi: int, l: string)
    requires lo + offset >= 1
    ensures l in BlockTasks(taskAt, offset, lo, hi) <==> exists c :: lo <= c < hi && taskAt(c) == Some(l)
    decreases hi - lo
  {
    if hi > lo {
      BlockTasksKeys(taskAt, offset, lo, hi - 1, l);
      if taskAt(hi - 1) == Some(l) {
        assert lo <= hi - 1 < hi;
      }
    }
  }

  /** A task's letters are those of the rightmost column of the block that carries its label. */
  lemma {:induction false} BlockTasksRightmost(taskAt: int -> Option<string>, offset: int, lo: int, hi: int, l: string)
    requires lo + offset >= 1
    requires l in BlockTasks(taskAt, offset, lo, hi)
    ensures exists c :: lo <= c < hi && taskAt(c) == Some(l) && BlockTasks(taskAt, offset, lo, hi)[l] == ColumnLetter(c + offset)
                        && forall c' :: c < c' < hi ==> taskAt(c') != Some(l)
    decreases hi - lo
  {
    if taskAt(hi - 1) == Some(l) {
      assert lo <= hi - 1 < hi;
    } else {
      BlockTasksRightmost(taskAt, offset, lo, hi - 1, l);
    }
  }

  /** Moving the scanned columns by some distance, and the letter offset
      back by the same distance, while reading the same labels builds the
      same tasks. */
  lemma {:induction false} BlockTasksShift(taskAt: int -> Option<string>, offset: int, lo: int, hi: int,
                                           taskAt': int -> Option<string>, offset': int, lo': int, hi': int)
    requires lo + offset >= 1 && lo' - lo == hi' - hi && offset' + lo' == offset + lo
    requires forall c :: lo <= c < hi ==> taskAt'(c + lo' - lo) == taskAt(c)
    ensures BlockTasks(taskAt', offset', lo', hi') == BlockTasks(taskAt, offset, lo, hi)
    decreases hi - lo
  {
    if hi > lo {
      BlockTasksShift(taskAt, offset, lo, hi - 1, taskAt', offset', lo', hi' - 1);
      assert taskAt'(hi - 1 + lo' - lo) == taskAt(hi - 1);
    }
  }

  // ---------------------------------------------------------------------------
  // The period list

  predicate BlocksStartAt(blocks: seq<Block>, offset: int) {
    forall i :: 0 <= i < |blocks| ==> blocks[i].minCol + offset >= 1
  }

  function BlockOf(taskAt: int -> Option<string>, offset: int, b: Block): map<string, string>
    requires b.minCol + offset >= 1
  {
    BlockTasks(taskAt, offset, b.minCol, b.maxCol + 1)
  }

  /** The periods contributed by the first `n` blocks: each block with tasks
      becomes a period named after its index. */
  function PeriodsUpTo(taskAt: int -> Option<string>, offset: int, blocks: seq<Block>, n: nat): seq<Period>
    requires n <= |blocks| && BlocksStartAt(blocks, offset)
  {
    if n == 0 then []
    else
      var ps := PeriodsUpTo(taskAt, offset, blocks, n - 1);
      var tasks := BlockOf(taskAt, offset, blocks[n - 1]);
      if tasks == map[] then ps else ps + [Period(PeriodName(n - 1), tasks)]
  }

  /** Two scans whose blocks yield the same tasks build the same periods. */
  lemma {:induction false} PeriodsAgree(taskAt: int -> Option<string>, offset: int, blocks: seq<Block>,
                                        taskAt': int -> Option<string>, offset': int, blocks': seq<Block>, n: nat)
    requires n <= |blocks| && n <= |blocks'| && BlocksStartAt(blocks, offset) && BlocksStartAt(blocks', offset')
    requires forall i :: 0 <= i < n ==> BlockOf(taskAt, offset, blocks[i]) == BlockOf(taskAt', offset', blocks'[i])
    ensures PeriodsUpTo(taskAt, offset, blocks, n) == PeriodsUpTo(taskAt', offset', blocks', n)
  {
    if n > 0 {
      PeriodsAgree(taskAt, offset, blocks, taskAt', offset', blocks', n - 1);
      assert BlockOf(taskAt, offset, blocks[n - 1]) == BlockOf(taskAt', offset', blocks'[n - 1]);
    }
  }

  /** Two scans over the same blocks moved by `d` columns, with the letter
      offset moved back by `d` and the same labels, build the same periods. */
  lemma {:induction false} PeriodsShift(taskAt: int -> Option<string>, offset: int, blocks: seq<Block>,
                     taskAt': int -> Option<string>, offset': int, blocks': seq<Block>, d: int)
    requires |blocks| == |blocks'| && BlocksStartAt(blocks, offset) && BlocksStartAt(blocks', offset') && offset' + d == offset
    requires forall i :: 0 <= i < |blocks| ==> blocks'[i] == Block(blocks[i].minCol + d, blocks[i].maxCol + d)
    requires forall i, c :: 0 <= i < |blocks| && blocks[i].minCol <= c <= blocks[i].maxCol ==> taskAt'(c + d) == taskAt(c)
    ensures PeriodsUpTo(taskAt, offset, blocks, |blocks|) == PeriodsUpTo(taskAt', offset', blocks', |blocks|)
  {
    forall i | 0 <= i < |blocks| ensures BlockOf(taskAt, offset, blocks[i]) == BlockOf(taskAt', offset', blocks'[i]) {
      var b, b' := blocks[i], blocks'[i];
      forall c | b.minCol <= c < b.maxCol + 1 ensures taskAt'(c + b'.minCol - b.minCol) == taskAt(c) {
        assert taskAt'(c + d) == taskAt(c);
      }
      BlockTasksShift(taskAt, offset, b.minCol, b.maxCol + 1, taskAt', offset', b'.minCol, b'.maxCol + 1);
    }
    PeriodsAgree(taskAt, offset, blocks, taskAt', offset', blocks', |blocks|);
  }

  /** The block loop shared by every mapper: scan each block's columns and
      keep, in block order, the blocks that have tasks as named periods. */
  method CollectPeriods(taskAt: int -> Option<string>, offset: int, blocks: seq<Block>) returns (periods: seq<Period>)
    requires BlocksStartAt(blocks, offset)
    ensures periods == PeriodsUpTo(taskAt, offset, blocks, |blocks|)
  {
    periods := [];
    var i := 0;
    while i < |blocks|
      invariant 0 <= i <= |blocks|
      invariant periods == PeriodsUpTo(taskAt, offset, blocks, i)
    {
      var currentTasks := ScanColumns(taskAt, offset, blocks[i].minCol, blocks[i].maxCol + 1);
      if currentTasks != map[] {
        periods := periods + [Period(PeriodName(i), currentTasks)];
      }
      i := i + 1;
    }
  }

  /** The mapper's result over the given blocks, failing when no block has a task. */
  function Assemble(taskAt: int -> Option<string>, offset: int, blocks: seq<Block>): Result<seq<Period>, LayoutError>
    requires BlocksStartAt(blocks, offset)
  {
    var ps := PeriodsUpTo(taskAt, offset, blocks, |blocks|);
    if ps == [] then Err(NoActivities) else Ok(ps)
  }

  /** Under the conditions of `PeriodsShift`, the first scan fails exactly
      when the second finds no period, and otherwise yields its periods. */
  lemma {:induction false} AssembleShift(taskAt: int -> Option<string>, offset: int, blocks: seq<Block>,
                      taskAt': int -> Option<string>, offset': int, blocks': seq<Block>, d: int)
    requires |blocks| == |blocks'| && BlocksStartAt(blocks, offset) && BlocksStartAt(blocks', offset') && offset' + d == offset
    requires forall i :: 0 <= i < |blocks| ==> blocks'[i] == Block(blocks[i].minCol + d, blocks[i].maxCol + d)
    requires forall i, c :: 0 <= i < |blocks| && blocks[i].minCol <= c <= blocks[i].maxCol ==> taskAt'(c + d) == taskAt(c)
    ensures var ps' := PeriodsUpTo(taskAt', offset', blocks', |blocks'|);
      Assemble(taskAt, offset, blocks) == if ps' == [] then Err(NoActivities) else Ok(ps')
  {
    PeriodsShift(taskAt, offset, blocks, taskAt', offset', blocks', d);
  }

  /** Every period is the non-empty task map of one block, under that block's name. */
  lemma {:induction false} PeriodsFromBlocks(taskAt: int -> Option<string>, offset: int, blocks: seq<Block>, n: nat, k: int)
    requires n <= |blocks| && BlocksStartAt(blocks, offset)
    requires 0 <= k < |PeriodsUpTo(taskAt, offset, blocks, n)|
    ensures var p := PeriodsUpTo(taskAt, offset, blocks, n)[k];
      p.tasks != map[] &&
      exists i :: 0 <= i < n && p.name == PeriodName(i) && p.tasks == BlockOf(taskAt, offset, blocks[i])
  {
    var ps := PeriodsUpTo(taskAt, offset, blocks, n - 1);
    if k < |ps| {
      PeriodsFromBlocks(taskAt, offset, blocks, n - 1, k);
      assert PeriodsUpTo(taskAt, offset, blocks, n)[k] == ps[k];
    } else {
      assert 0 <= n - 1 < n;
    }
  }

  /** Column `c` of block `b` carries label `l`, no later column of the block
      does, and `tasks` maps `l` to the letters of column `c + offset`. */
  predicate RightmostTaskColumn(taskAt: int -> Option<string>, offset: int, b: Block, tasks: map<string, string>,
                                l: string, c: int) {
    b.minCol <= c <= b.maxCol && c + offset >= 1 && taskAt(c) == Some(l)
    && l in tasks && tasks[l] == ColumnLetter(c + offset)
    && forall c' :: c < c' <= b.maxCol ==> taskAt(c') != Some(l)
  }

  /** Every task of a period sits in a column of that period's block whose
      label it is, the rightmost such column of the block. */
  lemma {:induction false} PeriodTaskColumn(taskAt: int -> Option<string>, offset: int, blocks: seq<Block>, k: int, l: string)
    requires BlocksStartAt(blocks, offset)
    requires 0 <= k < |PeriodsUpTo(taskAt, offset, blocks, |blocks|)|
    requires l in PeriodsUpTo(taskAt, offset, blocks, |blocks|)[k].tasks
    ensures exists i, c :: (0 <= i < |blocks| &&
      RightmostTaskColumn(taskAt, offset, blocks[i], PeriodsUpTo(taskAt, offset, blocks, |blocks|)[k].tasks, l, c))
  {
    var ps := PeriodsUpTo(taskAt, offset, blocks, |blocks|);
    PeriodsFromBlocks(taskAt, offset, blocks, |blocks|, k);
    var i :| 0 <= i < |blocks| && ps[k].name == PeriodName(i) && ps[k].tasks == BlockOf(taskAt, offset, blocks[i]);
    var lo, hi := blocks[i].minCol, blocks[i].maxCol + 1;
    BlockTasksRightmost(taskAt, offset, lo, hi, l);
    var c :| lo <= c < hi && taskAt(c) == Some(l) && BlockTasks(taskAt, offset, lo, hi)[l] == ColumnLetter(c + offset)
             && forall c' :: c < c' < hi ==> taskAt(c') != Some(l);
    assert RightmostTaskColumn(taskAt, offset, blocks[i], ps[k].tasks, l, c);
  }

  /** Every block with tasks contributes its period. */
  lemma {:induction false} PeriodsComplete(taskAt: int -> Option<string>, offset: int, blocks: seq<Block>, n: nat, i: nat)
    requires n <= |blocks| && BlocksStartAt(blocks, offset)
    requires i < n && BlockOf(taskAt, offset, blocks[i]) != map[]
    ensures Period(PeriodName(i), BlockOf(taskAt, offset, blocks[i])) in PeriodsUpTo(taskAt, offset, blocks, n)
  {
    if i < n - 1 {
      PeriodsComplete(taskAt, offset, blocks, n - 1, i);
    }
  }

  /** Periods keep the order of their blocks. */
  lemma {:induction false} PeriodsInBlockOrder(taskAt: int -> Option<string>, offset: int, blocks: seq<Block>, n: nat,
                                               a: int, b: int, i: nat, j: nat)
    requires n <= |blocks| && BlocksStartAt(blocks, offset)
    requires 0 <= a < b < |PeriodsUpTo(taskAt, offset, blocks, n)|
    requires PeriodsUpTo(taskAt, offset, blocks, n)[a].name == PeriodName(i)
    requires PeriodsUpTo(taskAt, offset, blocks, n)[b].name == PeriodName(j)
    ensures i < j
  {
    var ps := PeriodsUpTo(taskAt, offset, blocks, n - 1);
    if b < |ps| {
      assert PeriodsUpTo(taskAt, offset, blocks, n)[a] == ps[a];
      assert PeriodsUpTo(taskAt, offset, blocks, n)[b] == ps[b];
      PeriodsInBlockOrder(taskAt, offset, blocks, n - 1, a, b, i, j);
    } else {
      assert PeriodsUpTo(taskAt, offset, blocks, n)[a] == ps[a];
      PeriodsFromBlocks(taskAt, offset, blocks, n - 1, a);
      var i' :| 0 <= i' < n - 1 && ps[a].name == PeriodName(i');
      PeriodNameInjective(i, i');
      PeriodNameInjective(j, n - 1);
    }
  }

  /** Period names are unique, so a lookup by name finds one block. */
  lemma {:induction false} PeriodNamesDistinct(taskAt: int -> Option<string>, offset: int, blocks: seq<Block>, n: nat, a: int, b: int)
    requires n <= |blocks| && BlocksStartAt(blocks, offset)
    requires 0 <= a < b < |PeriodsUpTo(taskAt, offset, blocks, n)|
    ensures PeriodsUpTo(taskAt, offset, blocks, n)[a].name != PeriodsUpTo(taskAt, offset, blocks, n)[b].name
  {
    var ps := PeriodsUpTo(taskAt, offset, blocks, n);
    PeriodsFromBlocks(taskAt, offset, blocks, n, a);
    PeriodsFromBlocks(taskAt, offset, blocks, n, b);
    var i :| 0 <= i < n && ps[a].name == PeriodName(i);
    var j :| 0 <= j < n && ps[b].name == PeriodName(j);
    PeriodsInBlockOrder(taskAt, offset, blocks, n, a, b, i, j);
    if ps[a].name == ps[b].name {
      PeriodNameInjective(i, j);
    }
  }

  /** The mapper fails with `NoActivities` exactly when no block has a task. */
  lemma {:induction false} AssembleFails(taskAt: int -> Option<string>, offset: int, blocks: seq<Block>)
    requires BlocksStartAt(blocks, offset)
    ensures Assemble(taskAt, offset, blocks) == Err(NoActivities) <==>
      forall i :: 0 <= i < |blocks| ==> BlockOf(taskAt, offset, blocks[i]) == map[]
  {
    var ps := PeriodsUpTo(taskAt, offset, blocks, |blocks|);
    if ps != [] {
      PeriodsFromBlocks(taskAt, offset, blocks, |blocks|, 0);
    }
    forall i | 0 <= i < |blocks| && BlockOf(taskAt, offset, blocks[i]) != map[] ensures ps != [] {
      PeriodsComplete(taskAt, offset, blocks, |blocks|, i);
    }
  }
}
