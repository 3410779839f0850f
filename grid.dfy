/** The plain value grid that the Google Sheets API returns (`data[r][c]`, rows
    of strings of any length) and the "header starts" layout read from it:
    the columns that hold the header text in the four rows above the activity
    row, and the column spans between consecutive starts. */
module Grid {
  import opened Wrappers
  import opened PyText
  import opened Sheets
  import opened Sorting
  import opened Layout

  /** `MockSheet().cell(row, column).value`: `data[row - 1][column - 1]` with
      Python indexing, `None` where that raises IndexError. */
  function GridCell(data: seq<seq<string>>): (int, int) -> Value {
    (row, col) => GridValue(data, row, col)
  }

  function GridValue(data: seq<seq<string>>, row: int, col: int): Value {
    match PyIndex(data, row - 1)
    case None => Blank
    case Some(cells) =>
      match PyIndex(cells, col - 1)
      case None => Blank
      case Some(t) => Text(t)
  }

  /** Row `r` of the grid holds the header text (ignoring case) in column `x`. */
  predicate HeaderCell(data: seq<seq<string>>, header: string, r: int, x: int) {
    0 <= r < |data| && 0 <= x < |data[r]| && ContainsIgnoreCase(data[r][x], header)
  }

  /** Some row among `lo .. hi - 1` holds the header text in column `x`. */
  predicate HeaderInRows(data: seq<seq<string>>, header: string, lo: int, hi: int, x: int)
    decreases hi - lo
  {
    hi > lo && (HeaderInRows(data, header, lo, hi - 1, x) || HeaderCell(data, header, hi - 1, x))
  }

  /** Column `x` is a header start for activity row index `ari`: one of the
      four rows above it holds the header text there. */
  predicate IsHeaderStart(data: seq<seq<string>>, header: string, ari: int, x: int) {
    HeaderInRows(data, header, ari - 4, ari, x)
  }

  ghost predicate NoHeaderStart(data: seq<seq<string>>, header: string, ari: int) {
    forall x :: !IsHeaderStart(data, header, ari, x)
  }

  /** The length of the longest row. */
  function Widest(data: seq<seq<string>>): (w: nat)
    ensures forall r :: 0 <= r < |data| ==> |data[r]| <= w
  {
    if data == [] then 0
    else
      var w := Widest(data[..|data| - 1]);
      assert forall r :: 0 <= r < |data| - 1 ==> data[r] == data[..|data| - 1][r];
      if |data[|data| - 1]| > w then |data[|data| - 1]| else w
  }

  lemma {:induction false} HeaderInRowsBounds(data: seq<seq<string>>, header: string, lo: int, hi: int, x: int)
    requires HeaderInRows(data, header, lo, hi, x)
    ensures 0 <= x < Widest(data) && hi >= 1
    decreases hi - lo
  {
    if !HeaderCell(data, header, hi - 1, x) {
      HeaderInRowsBounds(data, header, lo, hi - 1, x);
    }
  }

  /** The header starts below `w`, in increasing order. */
  function StartsBelow(data: seq<seq<string>>, header: string, ari: int, w: nat): seq<int> {
    if w == 0 then []
    else StartsBelow(data, header, ari, w - 1) + (if IsHeaderStart(data, header, ari, w - 1) then [w - 1] else [])
  }

  /** The sorted `header_starts` of both grid mappers. */
  function HeaderColumns(data: seq<seq<string>>, header: string, ari: int): seq<int> {
    StartsBelow(data, header, ari, Widest(data))
  }

  lemma {:induction false} StartsBelowMembers(data: seq<seq<string>>, header: string, ari: int, w: nat)
    ensures forall x :: x in StartsBelow(data, header, ari, w) <==> 0 <= x < w && IsHeaderStart(data, header, ari, x)
    ensures Increasing(StartsBelow(data, header, ari, w))
  {
    if w > 0 {
      StartsBelowMembers(data, header, ari, w - 1);
      var s := StartsBelow(data, header, ari, w - 1);
      if IsHeaderStart(data, header, ari, w - 1) {
        var t := s + [w - 1];
        forall i, j | 0 <= i < j < |t| ensures t[i] < t[j] {
          assert t[i] == s[i] || j < |s|;
          assert t[i] in s;
        }
      }
    }
  }

  /** The header starts are exactly the columns holding the header text in
      the four rows above the activity row, each once, in increasing order. */
  lemma {:induction false} HeaderColumnsMembers(data: seq<seq<string>>, header: string, ari: int)
    ensures forall x :: x in HeaderColumns(data, header, ari) <==> IsHeaderStart(data, header, ari, x)
    ensures Increasing(HeaderColumns(data, header, ari))
  {
    StartsBelowMembers(data, header, ari, Widest(data));
    forall x | IsHeaderStart(data, header, ari, x) ensures 0 <= x < Widest(data) {
      HeaderInRowsBounds(data, header, ari - 4, ari, x);
    }
  }

  /** Header starts are columns of some row, so never negative. */
  lemma {:induction false} HeaderColumnsBounds(data: seq<seq<string>>, header: string, ari: int)
    ensures forall i :: 0 <= i < |HeaderColumns(data, header, ari)| ==> 0 <= HeaderColumns(data, header, ari)[i] < Widest(data)
  {
    StartsBelowMembers(data, header, ari, Widest(data));
    var hc := HeaderColumns(data, header, ari);
    forall i | 0 <= i < |hc| ensures 0 <= hc[i] < Widest(data) {
      assert hc[i] in hc;
    }
  }

  /** A header start needs a row of the grid above the activity row, so the
      activity row index is at least 1 whenever a start is found. */
  lemma {:induction false} HeaderColumnsNeedRows(data: seq<seq<string>>, header: string, ari: int)
    requires HeaderColumns(data, header, ari) != []
    ensures ari >= 1
  {
    HeaderColumnsMembers(data, header, ari);
    var x := HeaderColumns(data, header, ari)[0];
    assert x in HeaderColumns(data, header, ari);
    HeaderInRowsBounds(data, header, ari - 4, ari, x);
  }

  /** The `header_starts` loop of both grid mappers: every column of the four
      rows above the activity row that contains the header text, recorded
      once, then sorted. */
  method FindHeaderStarts(data: seq<seq<string>>, header: string, ari: int) returns (starts: seq<int>)
    ensures starts == HeaderColumns(data, header, ari)
  {
    var found: seq<int> := [];
    var r := ari - 4;
    while r < ari
      invariant ari - 4 <= r <= ari
      invariant forall x :: x in found <==> HeaderInRows(data, header, ari - 4, r, x)
      invariant forall i, j :: 0 <= i < j < |found| ==> found[i] != found[j]
    {
      if 0 <= r < |data| {
        var i := 0;
        while i < |data[r]|
          invariant 0 <= i <= |data[r]|
          invariant forall x :: x in found <==> HeaderInRows(data, header, ari - 4, r, x) || (0 <= x < i && HeaderCell(data, header, r, x))
          invariant forall i, j :: 0 <= i < j < |found| ==> found[i] != found[j]
        {
          if ContainsIgnoreCase(data[r][i], header) && i !in found {
            found := found + [i];
          }
          i := i + 1;
        }
      }
      r := r + 1;
    }
    starts := SortBy(found, (x: int) => x);
    SortedHeaderStarts(data, header, ari, found);
  }

  /** Sorting the distinct columns found in the header rows gives `HeaderColumns`. */
  lemma {:induction false} SortedHeaderStarts(data: seq<seq<string>>, header: string, ari: int, found: seq<int>)
    requires forall x :: x in found <==> HeaderInRows(data, header, ari - 4, ari, x)
    requires forall i, j :: 0 <= i < j < |found| ==> found[i] != found[j]
    ensures SortBy(found, (x: int) => x) == HeaderColumns(data, header, ari)
  {
    var starts := SortBy(found, (x: int) => x);
    SortBySorted(found, (x: int) => x);
    SortByPermutes(found, (x: int) => x);
    HeaderColumnsMembers(data, header, ari);
    SortedPermutationDistinct(found, starts);
    SortedDistinctIncreasing(starts);
    forall x ensures x in starts <==> x in HeaderColumns(data, header, ari) {
      assert x in starts <==> x in multiset(starts);
      assert x in found <==> x in multiset(found);
    }
    IncreasingUnique(starts, HeaderColumns(data, header, ari));
  }

  lemma {:induction false} SortedPermutationDistinct(a: seq<int>, b: seq<int>)
    requires multiset(a) == multiset(b)
    requires forall i, j :: 0 <= i < j < |a| ==> a[i] != a[j]
    ensures forall i, j :: 0 <= i < j < |b| ==> b[i] != b[j]
  {
    forall x | x in multiset(a) ensures multiset(a)[x] == 1 {
      DistinctCount(a, x);
    }
    forall i, j | 0 <= i < j < |b| ensures b[i] != b[j] {
      TwoPositions(b, i, j);
      assert b[i] in multiset(a);
    }
  }

  lemma {:induction false} TwoPositions(b: seq<int>, i: int, j: int)
    requires 0 <= i < j < |b|
    ensures b[i] == b[j] ==> multiset(b)[b[i]] >= 2
  {
    assert b == b[..i] + [b[i]] + b[i + 1..j] + [b[j]] + b[j + 1..];
  }

  lemma {:induction false} DistinctCount(a: seq<int>, x: int)
    requires forall i, j :: 0 <= i < j < |a| ==> a[i] != a[j]
    requires x in a
    ensures multiset(a)[x] == 1
  {
    var k :| 0 <= k < |a| && a[k] == x;
    assert a == a[..k] + [x] + a[k + 1..];
    assert x !in a[..k];
    assert x !in a[k + 1..];
  }

  /** Block `i` of the grid layout: from its start to one before the next
      start, the last block ending at the activity row's last column; both
      ends moved by `shift` (1 for the 1-based spans of `mapping`). */
  function GridBlock(starts: seq<int>, width: int, shift: int, i: int): Block
    requires 0 <= i < |starts|
  {
    var endCol := if i + 1 < |starts| then starts[i + 1] - 1 else width - 1;
    Block(starts[i] + shift, endCol + shift)
  }

  function GridBlocks(starts: seq<int>, width: int, shift: int): (bs: seq<Block>)
    ensures |bs| == |starts|
    ensures forall i :: 0 <= i < |starts| ==> bs[i] == GridBlock(starts, width, shift, i)
  {
    seq(|starts|, i requires 0 <= i < |starts| => GridBlock(starts, width, shift, i))
  }

  /** The `header_ranges` loop of both grid mappers. */
  method GridRanges(starts: seq<int>, width: int, shift: int) returns (ranges: seq<Block>)
    ensures ranges == GridBlocks(starts, width, shift)
  {
    ranges := [];
    var i := 0;
    while i < |starts|
      invariant 0 <= i <= |starts|
      invariant |ranges| == i
      invariant forall k :: 0 <= k < i ==> ranges[k] == GridBlock(starts, width, shift, k)
    {
      var endCol := if i + 1 < |starts| then starts[i + 1] - 1 else width - 1;
      ranges := ranges + [Block(starts[i] + shift, endCol + shift)];
      i := i + 1;
    }
  }

  predicate InBlock(b: Block, c: int) {
    b.minCol <= c <= b.maxCol
  }

  /** With increasing starts, no column lies in two blocks. */
  lemma {:induction false} GridBlocksDisjoint(starts: seq<int>, width: int, shift: int, i: int, j: int, c: int)
    requires Increasing(starts) && 0 <= i < j < |starts|
    requires InBlock(GridBlock(starts, width, shift, i), c)
    ensures !InBlock(GridBlock(starts, width, shift, j), c)
  {
    assert starts[i + 1] <= starts[j];
  }

  /** Every column from the first start to the activity row's last column lies in a block. */
  lemma {:induction false} GridBlocksCover(starts: seq<int>, width: int, shift: int, c: int)
    requires Increasing(starts) && starts != []
    requires starts[0] + shift <= c < width + shift
    ensures exists i :: 0 <= i < |starts| && InBlock(GridBlock(starts, width, shift, i), c)
    decreases |starts|
  {
    if |starts| == 1 || c < starts[1] + shift {
      assert InBlock(GridBlock(starts, width, shift, 0), c);
    } else {
      var rest := starts[1..];
      GridBlocksCover(rest, width, shift, c);
      var i :| 0 <= i < |rest| && InBlock(GridBlock(rest, width, shift, i), c);
      assert GridBlock(rest, width, shift, i) == GridBlock(starts, width, shift, i + 1);
    }
  }

  /** Blocks built from non-negative starts begin, once moved by `shift` and `offset`, at column 1 or later. */
  lemma {:induction false} GridBlocksStart(starts: seq<int>, width: int, shift: int, offset: int)
    requires shift + offset >= 1 && forall i :: 0 <= i < |starts| ==> starts[i] >= 0
    ensures BlocksStartAt(GridBlocks(starts, width, shift), offset)
  {
  }
}
