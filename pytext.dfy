/** The parts of Python's `str` and sequence semantics that the grading engine
    relies on: whitespace splitting, joining, lower-casing, substring tests,
    `str(int)`, and indexing and slicing with negative indices. */
module PyText {
  import opened Wrappers

  /** `c.isspace()` as used by `str.split()` with no separator. */
  predicate IsSpace(c: char) {
    || ('\t' <= c <= '\r')
    || ('\U{1C}' <= c <= '\U{1F}')
    || c == ' ' || c == '\U{85}' || c == '\U{A0}' || c == '\U{1680}'
    || ('\U{2000}' <= c <= '\U{200A}')
    || c == '\U{2028}' || c == '\U{2029}' || c == '\U{202F}' || c == '\U{205F}' || c == '\U{3000}'
  }

  predicate IsAsciiUpper(c: char) { 'A' <= c <= 'Z' }

  predicate IsAsciiLetter(c: char) { 'A' <= c <= 'Z' || 'a' <= c <= 'z' }

  predicate IsDigit(c: char) { '0' <= c <= '9' }

  /** `str.lower()` on one character; only ASCII capitals are mapped. */
  function Lower(c: char): (r: char)
    ensures IsAsciiUpper(c) ==> 'a' <= r <= 'z' && r as int == c as int + 32
    ensures !IsAsciiUpper(c) ==> r == c
  {
    if IsAsciiUpper(c) then (c as int + 32) as char else c
  }

  function LowerStr(s: string): (r: string)
    ensures |r| == |s| && forall i :: 0 <= i < |s| ==> r[i] == Lower(s[i])
  {
    if s == [] then [] else [Lower(s[0])] + LowerStr(s[1..])
  }

  /** `needle in hay` for strings: `needle` occurs as a contiguous block. */
  predicate Contains(hay: string, needle: string) {
    exists i | 0 <= i <= |hay| - |needle| :: OccursAt(hay, needle, i)
  }

  predicate OccursAt(hay: string, needle: string, i: int)
    requires 0 <= i <= |hay| - |needle|
  {
    hay[i..i + |needle|] == needle
  }

  /** The case-insensitive test `needle.lower() in hay.lower()`. */
  predicate ContainsIgnoreCase(hay: string, needle: string) {
    Contains(LowerStr(hay), LowerStr(needle))
  }

  /** The characters removed by `str.split()` before a token. */
  function DropSpaces(s: string): (r: string)
    ensures |r| <= |s| && r == s[|s| - |r|..]
    ensures r != [] ==> !IsSpace(r[0])
    ensures forall i :: 0 <= i < |s| - |r| ==> IsSpace(s[i])
  {
    if s != [] && IsSpace(s[0]) then DropSpaces(s[1..]) else s
  }

  /** The longest prefix of `s` that holds no whitespace. */
  function TakeWord(s: string): (r: string)
    ensures |r| <= |s| && r == s[..|r|]
    ensures NoSpace(r)
    ensures |r| < |s| ==> IsSpace(s[|r|])
  {
    if s != [] && !IsSpace(s[0]) then [s[0]] + TakeWord(s[1..]) else []
  }

  predicate NoSpace(s: string) {
    forall i :: 0 <= i < |s| ==> !IsSpace(s[i])
  }

  /** A token of `str.split()`: non-empty and free of whitespace. */
  predicate IsToken(t: string) {
    |t| > 0 && NoSpace(t)
  }

  /** `s.split()`: the maximal runs of non-whitespace characters, in order. */
  function Split(s: string): (r: seq<string>)
    ensures forall i :: 0 <= i < |r| ==> IsToken(r[i])
    decreases |s|
  {
    var t := DropSpaces(s);
    if t == [] then []
    else
      var w := TakeWord(t);
      assert w[0] == t[0];
      [w] + Split(t[|w|..])
  }

  /** One step of `str.split()`: skip the blanks, take a word, split the rest. */
  lemma {:induction false} SplitHeadTail(s: string)
    requires DropSpaces(s) != []
    ensures var t := DropSpaces(s); var w := TakeWord(t);
      |w| > 0 && Split(s) == [w] + Split(t[|w|..])
  {
    assert TakeWord(DropSpaces(s))[0] == DropSpaces(s)[0];
  }

  /** Every piece of `s.split()` is a token. */
  lemma {:induction false} SplitTokens(s: string)
    ensures forall i :: 0 <= i < |Split(s)| ==> IsToken(Split(s)[i])
    decreases |s|
  {
    var t := DropSpaces(s);
    if t != [] {
      var w := TakeWord(t);
      SplitHeadTail(s);
      SplitTokens(t[|w|..]);
      assert forall i :: 0 < i < |Split(s)| ==> Split(s)[i] == Split(t[|w|..])[i - 1];
    } else {
      assert Split(s) == [];
    }
  }

  /** Every character of `t` belongs to the class `p`. */
  predicate AllChars(t: string, p: char -> bool) {
    forall k :: 0 <= k < |t| ==> p(t[k])
  }

  lemma {:induction false} AllCharsSlice(s: string, p: char -> bool, a: int, b: int)
    requires AllChars(s, p) && 0 <= a <= b <= |s|
    ensures AllChars(s[a..b], p)
  {
    forall k | 0 <= k < b - a ensures p(s[a..b][k]) {
      assert s[a..b][k] == s[a + k];
    }
  }

  lemma {:induction false} SplitStepChars(s: string, p: char -> bool)
    requires AllChars(s, p) && DropSpaces(s) != []
    ensures var t := DropSpaces(s); var w := TakeWord(t);
      AllChars(w, p) && AllChars(t[|w|..], p)
  {
    var t := DropSpaces(s);
    var w := TakeWord(t);
    AllCharsSlice(s, p, |s| - |t|, |s|);
    AllCharsSlice(t, p, 0, |w|);
    AllCharsSlice(t, p, |w|, |t|);
  }

  /** The tokens of `s.split()` take their characters from `s`: a class of
      characters that covers `s` covers every token. */
  lemma {:induction false} SplitAllChars(s: string, p: char -> bool)
    requires AllChars(s, p)
    ensures forall i :: 0 <= i < |Split(s)| ==> AllChars(Split(s)[i], p)
    decreases |s|
  {
    var t := DropSpaces(s);
    if t != [] {
      var w := TakeWord(t);
      SplitHeadTail(s);
      SplitStepChars(s, p);
      SplitAllChars(t[|w|..], p);
      AllCharsCons(w, Split(t[|w|..]), p);
    }
  }

  lemma {:induction false} AllCharsCons(w: string, ws: seq<string>, p: char -> bool)
    requires AllChars(w, p) && forall i :: 0 <= i < |ws| ==> AllChars(ws[i], p)
    ensures forall i :: 0 <= i < |[w] + ws| ==> AllChars(([w] + ws)[i], p)
  {
    forall i | 0 <= i < |[w] + ws| ensures AllChars(([w] + ws)[i], p) {
      if i > 0 {
        assert ([w] + ws)[i] == ws[i - 1];
      }
    }
  }

  /** `" ".join(ts)`. */
  function Join(ts: seq<string>): string {
    if ts == [] then ""
    else if |ts| == 1 then ts[0]
    else ts[0] + " " + Join(ts[1..])
  }

  lemma {:induction false} DropSpacesOfSpace(s: string)
    ensures DropSpaces(" " + s) == DropSpaces(s)
  {
    assert (" " + s)[1..] == s;
  }

  lemma {:induction false} TakeWordOfToken(w: string, rest: string)
    requires NoSpace(w)
    requires rest == [] || IsSpace(rest[0])
    ensures TakeWord(w + rest) == w
  {
    if w != [] {
      assert (w + rest)[1..] == w[1..] + rest;
      TakeWordOfToken(w[1..], rest);
    }
  }

  lemma {:induction false} ConcatAssoc<T>(a: seq<T>, b: seq<T>, c: seq<T>)
    ensures a + b + c == a + (b + c)
  {
  }

  lemma {:induction false} HeadTail<T>(s: seq<T>)
    requires |s| > 0
    ensures s == [s[0]] + s[1..]
  {
  }

  lemma {:induction false} SplitOfSpace(x: string)
    ensures Split(" " + x) == Split(x)
  {
    DropSpacesOfSpace(x);
  }

  /** A token followed by nothing or by a blank is the first piece of the split. */
  lemma {:induction false} SplitOfToken(w: string, rest: string)
    requires IsToken(w)
    requires rest == [] || IsSpace(rest[0])
    ensures Split(w + rest) == [w] + Split(rest)
  {
    var s := w + rest;
    assert s[0] == w[0];
    assert DropSpaces(s) == s;
    TakeWordOfToken(w, rest);
    SplitHeadTail(s);
    assert s[|w|..] == rest;
  }

  /** Splitting a space-joined list of tokens gives the tokens back. */
  lemma {:induction false} SplitJoin(ts: seq<string>)
    requires forall i :: 0 <= i < |ts| ==> IsToken(ts[i])
    ensures Split(Join(ts)) == ts
  {
    if ts == [] {
      assert Split([]) == [];
    } else if |ts| == 1 {
      SplitOfToken(ts[0], []);
      assert ts[0] + [] == ts[0];
      assert Split([]) == [];
      assert ts == [ts[0]];
    } else {
      SplitJoin(ts[1..]);
      SplitJoinStep(ts);
    }
  }

  lemma {:induction false} SplitJoinStep(ts: seq<string>)
    requires |ts| > 1 && IsToken(ts[0])
    requires Split(Join(ts[1..])) == ts[1..]
    ensures Split(Join(ts)) == ts
  {
    var tail := Join(ts[1..]);
    calc {
      Split(Join(ts));
      { assert Join(ts) == ts[0] + " " + tail; ConcatAssoc(ts[0], " ", tail); }
      Split(ts[0] + (" " + tail));
      { SplitOfToken(ts[0], " " + tail); }
      [ts[0]] + Split(" " + tail);
      { SplitOfSpace(tail); }
      [ts[0]] + ts[1..];
      { HeadTail(ts); }
      ts;
    }
  }

  /** Every character of `" ".join(ts)` is a space or comes from a token. */
  lemma {:induction false} JoinChars(ts: seq<string>, k: int)
    requires 0 <= k < |Join(ts)|
    ensures Join(ts)[k] == ' ' || exists i, j :: 0 <= i < |ts| && 0 <= j < |ts[i]| && ts[i][j] == Join(ts)[k]
  {
    if |ts| == 1 {
      assert ts[0][k] == Join(ts)[k];
    } else if |ts| > 1 {
      var head := ts[0] + " ";
      if k < |ts[0]| {
        assert ts[0][k] == Join(ts)[k];
      } else if k > |ts[0]| {
        assert Join(ts)[k] == Join(ts[1..])[k - |head|];
        JoinChars(ts[1..], k - |head|);
        if Join(ts)[k] != ' ' {
          var i, j :| 0 <= i < |ts[1..]| && 0 <= j < |ts[1..][i]| && ts[1..][i][j] == Join(ts)[k];
          assert ts[i + 1][j] == Join(ts)[k];
        }
      }
    }
  }

  /** Joining tokens of a class that holds the space stays in that class. */
  lemma {:induction false} JoinAllChars(ts: seq<string>, p: char -> bool)
    requires p(' ') && forall i :: 0 <= i < |ts| ==> AllChars(ts[i], p)
    ensures AllChars(Join(ts), p)
  {
    if |ts| > 1 {
      JoinAllChars(ts[1..], p);
      var head := ts[0] + " ";
      assert AllChars(head, p);
      var tail := Join(ts[1..]);
      assert Join(ts) == head + tail;
      forall k | 0 <= k < |Join(ts)| ensures p(Join(ts)[k]) {
        if k >= |head| {
          assert Join(ts)[k] == tail[k - |head|];
        }
      }
    }
  }

  function Digit(d: int): (c: char)
    requires 0 <= d < 10
    ensures IsDigit(c)
  {
    ('0' as int + d) as char
  }

  /** `str(n)` for a non-negative integer. */
  function Natural(n: nat): (r: string)
    ensures |r| > 0 && forall i :: 0 <= i < |r| ==> IsDigit(r[i])
  {
    if n < 10 then [Digit(n)] else Natural(n / 10) + [Digit(n % 10)]
  }

  /** `str(n)` for any integer. */
  function Decimal(n: int): (r: string)
    ensures |r| > 0 && (r[0] == '-' <==> n < 0)
  {
    if n < 0 then "-" + Natural(-n) else Natural(n)
  }

  /** The value of a string of decimal digits. */
  function DigitsValue(s: string): nat
    requires forall i :: 0 <= i < |s| ==> IsDigit(s[i])
  {
    if s == [] then 0
    else
      assert IsDigit(s[|s| - 1]);
      DigitsValue(s[..|s| - 1]) * 10 + (s[|s| - 1] as int - '0' as int)
  }

  lemma {:induction false} NaturalRoundTrip(n: nat)
    ensures DigitsValue(Natural(n)) == n
  {
    if n >= 10 {
      var s := Natural(n);
      assert s[..|s| - 1] == Natural(n / 10);
      NaturalRoundTrip(n / 10);
    }
  }

  /** Distinct integers print differently. */
  lemma {:induction false} DecimalInjective(a: int, b: int)
    requires Decimal(a) == Decimal(b)
    ensures a == b
  {
    if a < 0 {
      assert Natural(-a) == Decimal(a)[1..] == Natural(-b);
      NaturalRoundTrip(-a);
      NaturalRoundTrip(-b);
    } else {
      assert Natural(a) == Decimal(a) == Decimal(b) == Natural(b);
      NaturalRoundTrip(a);
      NaturalRoundTrip(b);
    }
  }

  /** Only the ASCII letters of `s`, in order: `"".join(ch for ch in s if ch.isalpha())`. */
  function Letters(s: string): (r: string)
    ensures |r| <= |s|
  {
    if s == [] then [] else (if IsAsciiLetter(s[0]) then [s[0]] else []) + Letters(s[1..])
  }

  /** `s[i]` with Python's negative indices; `None` where Python raises IndexError. */
  function PyIndex<T>(s: seq<T>, i: int): (r: Option<T>)
    ensures 0 <= i < |s| ==> r == Some(s[i])
    ensures r.None? <==> i >= |s| || i < -|s|
  {
    if 0 <= i < |s| then Some(s[i])
    else if -|s| <= i < 0 then Some(s[|s| + i])
    else None
  }

  /** A slice bound as Python clamps it. */
  function SliceBound(len: nat, x: int): (r: nat)
    ensures r <= len
    ensures 0 <= x <= len ==> r == x
  {
    if x < 0 then (if len + x < 0 then 0 else len + x) else if x > len then len else x
  }

  /** `s[a:b]` with Python's rules for negative and out-of-range bounds. */
  function PySlice<T>(s: seq<T>, a: int, b: int): seq<T> {
    var lo, hi := SliceBound(|s|, a), SliceBound(|s|, b);
    if lo < hi then s[lo..hi] else []
  }
}
