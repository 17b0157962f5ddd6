/**
 * The editing primitives of the engine. Each takes a buffer value and returns
 * the buffer after one step; only the yank writes to shared state, the
 * one-slot register.
 */
module BufferOps {
  import opened Runtime
  import opened Types

  /** The register `{ line?: string }`: one slot, empty until the first yank. */
  class Register {
    var line: Option<string>

    constructor ()
      ensures line == None
    {
      line := None;
    }
  }

  /** `lines[row] ?? ''`: the text of a row, or the empty line for a row outside the buffer. */
  function LineAt(lines: seq<string>, row: int): (r: string)
    ensures 0 <= row < |lines| ==> r == lines[row]
    ensures !(0 <= row < |lines|) ==> r == ""
  {
    if 0 <= row < |lines| then lines[row] else ""
  }

  /** The last column the cursor may take on `line`; an empty line still has column 0. */
  function LastCol(line: string): nat
  {
    Max(0, |line| - 1)
  }

  /** `v` is `target` moved into [lo, hi]: `target` itself when inside, otherwise the nearer end. */
  predicate NearestIn(v: int, target: int, lo: int, hi: int)
  {
    lo <= v <= hi
    && (lo <= target <= hi ==> v == target)
    && (target < lo ==> v == lo)
    && (hi < target ==> v == hi)
  }

  /** `Math.max(min, Math.min(max, n))`. */
  function Clamp(n: int, lo: int, hi: int): (r: int)
    ensures lo <= hi ==> NearestIn(r, n, lo, hi)
    ensures hi < lo ==> r == lo
  {
    Max(lo, Min(hi, n))
  }

  /** Moves the cursor by (dRow, dCol), clamping the row to the buffer and the column to the destination line. */
  function MoveCursor(buf: Buffer, dRow: int, dCol: int): (r: Buffer)
    ensures r.lines == buf.lines
    ensures |buf.lines| > 0 ==> NearestIn(r.cursor.row, buf.cursor.row + dRow, 0, |buf.lines| - 1)
    ensures |buf.lines| == 0 ==> r.cursor.row == 0
    ensures NearestIn(r.cursor.col, buf.cursor.col + dCol, 0, LastCol(LineAt(r.lines, r.cursor.row)))
  {
    var row := Clamp(buf.cursor.row + dRow, 0, |buf.lines| - 1);
    var line := LineAt(buf.lines, row);
    var col := Clamp(buf.cursor.col + dCol, 0, LastCol(line));
    Buffer(buf.lines, Pos(row, col))
  }

  /** Puts the cursor at (row, col), clamped the same way as a move. */
  function SetCursor(buf: Buffer, row: int, col: int): (r: Buffer)
    ensures r.lines == buf.lines
    ensures |buf.lines| > 0 ==> NearestIn(r.cursor.row, row, 0, |buf.lines| - 1)
    ensures |buf.lines| == 0 ==> r.cursor.row == 0
    ensures NearestIn(r.cursor.col, col, 0, LastCol(LineAt(r.lines, r.cursor.row)))
  {
    var r := Clamp(row, 0, |buf.lines| - 1);
    var line := LineAt(buf.lines, r);
    var c := Clamp(col, 0, LastCol(line));
    Buffer(buf.lines, Pos(r, c))
  }

  /**
   * Deletes the character under the cursor. When there is one, putting it
   * back at the cursor column restores the line, and nothing else changes;
   * on an empty line or past its end the buffer is returned as it is.
   */
  function DeleteChar(buf: Buffer): (r: Buffer)
    ensures var row, col := buf.cursor.row, buf.cursor.col;
            var line := LineAt(buf.lines, row);
            if line != "" && col < |line| then
              0 <= row < |buf.lines| && |r.lines| == |buf.lines| && r.cursor == buf.cursor
              && (forall i :: 0 <= i < |buf.lines| && i != row ==> r.lines[i] == buf.lines[i])
              && |r.lines[row]| == |line| - 1
              && r.lines[row][..col] + [line[col]] + r.lines[row][col..] == line
            else
              r == buf
  {
    var row, col := buf.cursor.row, buf.cursor.col;
    var line := LineAt(buf.lines, row);
    if line == "" then buf
    else if col >= |line| then buf
    else
      var nextLine := line[..col] + line[col + 1..];
      assert nextLine[..col] + [line[col]] + nextLine[col..] == line;
      Buffer(buf.lines[row := nextLine], buf.cursor)
  }

  /** All of `s[lo..hi]` are word characters. */
  predicate WordRun(s: string, lo: nat, hi: nat)
    requires lo <= hi <= |s|
  {
    forall k :: lo <= k < hi ==> IsWordChar(s[k])
  }

  /** None of `s[lo..hi]` is a word character. */
  predicate NonWordRun(s: string, lo: nat, hi: nat)
    requires lo <= hi <= |s|
  {
    forall k :: lo <= k < hi ==> !IsWordChar(s[k])
  }

  /** `s[..n]` matches `^\W*\w+\W*`: non-word characters, at least one word character, non-word characters. */
  ghost predicate IsWordMatch(s: string, n: nat)
  {
    n <= |s| && exists i, j :: 0 <= i < j <= n && NonWordRun(s, 0, i) && WordRun(s, i, j) && NonWordRun(s, j, n)
  }

  /** `s[..n]` is the longest prefix of `s` that matches `^\W*\w+\W*`, i.e. the greedy match. */
  ghost predicate IsLongestWordMatch(s: string, n: nat)
  {
    IsWordMatch(s, n) && forall m: nat :: IsWordMatch(s, m) ==> m <= n
  }

  /** The length of the longest run from `from` on whose characters are all word characters (`word`) or all not. */
  function RunLen(s: string, from: nat, word: bool): (n: nat)
    requires from <= |s|
    ensures from + n <= |s|
    ensures forall k :: from <= k < from + n ==> IsWordChar(s[k]) == word
    ensures from + n == |s| || IsWordChar(s[from + n]) != word
    decreases |s| - from
  {
    if from < |s| && IsWordChar(s[from]) == word then 1 + RunLen(s, from + 1, word) else 0
  }

  /** The length of what `s.match` with `^\W*\w+\W*` matches, when it matches. */
  function WordPrefixLen(s: string): (m: Option<nat>)
    ensures m.Some? ==> 0 < m.value <= |s|
  {
    var a := RunLen(s, 0, false);
    var b := RunLen(s, a, true);
    if b == 0 then None else Some(a + b + RunLen(s, a + b, false))
  }

  /** Any match of `^\W*\w+\W*` ends no later than the greedy one. */
  lemma WordMatchBounded(s: string, i: nat, j: nat, m: nat)
    requires 0 <= i < j <= m <= |s|
    requires NonWordRun(s, 0, i) && WordRun(s, i, j) && NonWordRun(s, j, m)
    ensures var a := RunLen(s, 0, false);
            var b := RunLen(s, a, true);
            i == a && j <= a + b && m <= a + b + RunLen(s, a + b, false)
  {
    var a := RunLen(s, 0, false);
    assert IsWordChar(s[i]);
    assert i == a;
    var b := RunLen(s, a, true);
    assert j < m ==> !IsWordChar(s[j]);
    assert j < a + b ==> IsWordChar(s[j]);
    assert j <= a + b;
  }

  /** A match always holds a word character. */
  lemma MatchNeedsWordChar(s: string)
    ensures forall n: nat :: IsWordMatch(s, n) ==> !NonWordRun(s, 0, |s|)
  {
    forall n: nat | IsWordMatch(s, n) ensures !NonWordRun(s, 0, |s|) {
      var i, j :| 0 <= i < j <= n && NonWordRun(s, 0, i) && WordRun(s, i, j) && NonWordRun(s, j, n);
      assert IsWordChar(s[i]);
    }
  }

  /** WordPrefixLen is the regular expression's greedy match, and matches exactly when a word character follows. */
  lemma WordPrefixLenIsLongestMatch(s: string)
    ensures WordPrefixLen(s).None? <==> NonWordRun(s, 0, |s|)
    ensures WordPrefixLen(s).None? ==> forall n :: !IsWordMatch(s, n)
    ensures WordPrefixLen(s).Some? ==> IsLongestWordMatch(s, WordPrefixLen(s).value)
  {
    var a := RunLen(s, 0, false);
    var b := RunLen(s, a, true);
    var c := RunLen(s, a + b, false);
    if b == 0 {
      assert a == |s|;
      MatchNeedsWordChar(s);
    } else {
      assert !NonWordRun(s, 0, |s|) by { assert IsWordChar(s[a]); }
      assert NonWordRun(s, 0, a) && WordRun(s, a, a + b) && NonWordRun(s, a + b, a + b + c);
      assert IsWordMatch(s, a + b + c);
      forall m: nat | IsWordMatch(s, m) ensures m <= a + b + c {
        var i, j :| 0 <= i < j <= m && NonWordRun(s, 0, i) && WordRun(s, i, j) && NonWordRun(s, j, m);
        WordMatchBounded(s, i, j, m);
      }
    }
  }

  /** `deleteWord`: deletes from the cursor the match of `^\W*\w+\W*` on the rest of the line. */
  function DeleteWord(buf: Buffer): (r: Buffer)
    ensures r.cursor == buf.cursor && |r.lines| == |buf.lines|
    ensures forall i :: 0 <= i < |buf.lines| && i != buf.cursor.row ==> r.lines[i] == buf.lines[i]
  {
    var row, col := buf.cursor.row, buf.cursor.col;
    var line := LineAt(buf.lines, row);
    var rest := SliceFrom(line, col);
    match WordPrefixLen(rest)
    case None => buf
    case Some(len) =>
      var nextLine := line[..col] + SliceFrom(line, col + len);
      Buffer(buf.lines[row := nextLine], buf.cursor)
  }

  /**
   * Delete word removes, at the cursor, exactly the longest prefix of the rest
   * of the line that matches `^\W*\w+\W*` (the next word and the non-word
   * characters around it); the cursor and the other lines stay. Without a
   * match the buffer is returned as it is.
   */
  lemma DeleteWordRemovesLongestMatch(buf: Buffer)
    ensures var r, row, col := DeleteWord(buf), buf.cursor.row, buf.cursor.col;
            var line := LineAt(buf.lines, row);
            var rest := SliceFrom(line, col);
            r.cursor == buf.cursor && |r.lines| == |buf.lines|
            && ((forall n: nat :: !IsWordMatch(rest, n)) ==> r == buf)
            && (forall n: nat :: IsLongestWordMatch(rest, n) ==>
                  0 <= row < |buf.lines| && col + n <= |line|
                  && r.lines == buf.lines[row := line[..col] + line[col + n..]])
  {
    var line := LineAt(buf.lines, buf.cursor.row);
    WordPrefixLenIsLongestMatch(SliceFrom(line, buf.cursor.col));
  }

  /** Change word is, by the engine's own simplification, delete word. */
  function ChangeWord(buf: Buffer): (r: Buffer)
    ensures r == DeleteWord(buf)
  {
    DeleteWord(buf)
  }

  /** Copies the cursor's line (empty for a row outside the buffer) into the register. */
  method YankLine(buf: Buffer, register: Register)
    modifies register
    ensures register.line == Some(LineAt(buf.lines, buf.cursor.row))
  {
    register.line := Some(LineAt(buf.lines, buf.cursor.row));
  }

  /** `register.line ?? ''`. */
  function StoredLine(stored: Option<string>): (r: string)
    ensures stored == Some(r) || (stored == None && r == "")
  {
    if stored.Some? then stored.value else ""
  }

  /**
   * Inserts the register's line below the cursor's row and puts the cursor at
   * the start of the new line. Taking the new line out again gives back the
   * old lines. For a row inside the buffer, or just above it, the new line is
   * at row + 1; below the buffer it is appended.
   */
  function PasteBelow(buf: Buffer, stored: Option<string>): (r: Buffer)
    ensures var k := RelativeIndex(buf.cursor.row + 1, |buf.lines|);
            |r.lines| == |buf.lines| + 1 && r.lines[k] == StoredLine(stored)
            && r.lines[..k] + r.lines[k + 1..] == buf.lines
    ensures var row, paste := buf.cursor.row, StoredLine(stored);
            -1 <= row < |buf.lines| ==>
              r.lines[..row + 1] == buf.lines[..row + 1] && r.lines[row + 1] == paste
              && r.lines[row + 2..] == buf.lines[row + 1..]
    ensures buf.cursor.row >= |buf.lines| ==> r.lines == buf.lines + [StoredLine(stored)]
    ensures r.cursor == Pos(buf.cursor.row + 1, 0)
  {
    var r := buf.cursor.row;
    var lines := Splice(buf.lines, r + 1, 0, [StoredLine(stored)]);
    var k := RelativeIndex(r + 1, |buf.lines|);
    assert lines[..k] + lines[k + 1..] == buf.lines by {
      assert lines[..k] == buf.lines[..k];
      assert lines[k + 1..] == buf.lines[k..];
    }
    Buffer(lines, Pos(r + 1, 0))
  }

  /** Pasting a row's own line below it duplicates that row and leaves the cursor at the copy's start. */
  lemma PasteOwnLine(buf: Buffer)
    requires 0 <= buf.cursor.row < |buf.lines|
    ensures var row, r := buf.cursor.row, PasteBelow(buf, Some(LineAt(buf.lines, buf.cursor.row)));
            |r.lines| == |buf.lines| + 1
            && r.lines[row] == r.lines[row + 1] == buf.lines[row]
            && r.lines[..row + 1] == buf.lines[..row + 1] && r.lines[row + 2..] == buf.lines[row + 1..]
            && r.cursor == Pos(row + 1, 0)
  {
  }

  /**
   * Deletes `count` lines from the cursor's row (JavaScript `splice`
   * semantics). A one-line buffer is blanked to a single empty line instead.
   * For a row inside a longer buffer exactly min(count, lines below) lines
   * go, the cursor stays on its row if a line is left there and otherwise
   * moves to the new last line, and the column is kept when it fits and
   * otherwise becomes the new line's length (one past its last character).
   */
  function DeleteLine(buf: Buffer, count: int): (r: Buffer)
    ensures |buf.lines| == 1 ==> r == Buffer([""], Pos(0, 0))
    ensures var row := buf.cursor.row;
            |buf.lines| >= 2 && 0 <= row < |buf.lines| ==>
              var d := Min(Max(count, 0), |buf.lines| - row);
              |r.lines| == |buf.lines| - d
              && r.lines[..row] == buf.lines[..row] && r.lines[row..] == buf.lines[row + d..]
              && (row < |r.lines| ==> r.cursor.row == row)
              && (row >= |r.lines| ==> r.cursor.row == Max(0, |r.lines| - 1))
    ensures |buf.lines| != 1 ==>
              var len := |LineAt(r.lines, r.cursor.row)|;
              r.cursor.col <= len
              && (buf.cursor.col <= len ==> r.cursor.col == buf.cursor.col)
              && (buf.cursor.col > len ==> r.cursor.col == len)
  {
    var r := buf.cursor.row;
    if |buf.lines| == 1 then
      Buffer([""], Pos(0, 0))
    else
      var lines := Splice(buf.lines, r, count, []);
      var newRow := Min(r, Max(0, |lines| - 1));
      var newCol := Min(buf.cursor.col, |LineAt(lines, newRow)|);
      Buffer(lines, Pos(newRow, newCol))
  }

  /** Moves the cursor to column 0 of its row. */
  function LineStart(buf: Buffer): (r: Buffer)
    ensures r.lines == buf.lines && r.cursor.row == buf.cursor.row && r.cursor.col == 0
  {
    Buffer(buf.lines, Pos(buf.cursor.row, 0))
  }

  /** Moves the cursor to the last character of its row (column 0 on an empty line). */
  function LineEnd(buf: Buffer): (r: Buffer)
    ensures r.lines == buf.lines && r.cursor.row == buf.cursor.row
    ensures var line := LineAt(buf.lines, buf.cursor.row);
            (line == "" ==> r.cursor.col == 0)
            && (line != "" ==> r.cursor.col < |line| && r.cursor.col + 1 == |line|)
  {
    var line := LineAt(buf.lines, buf.cursor.row);
    Buffer(buf.lines, Pos(buf.cursor.row, LastCol(line)))
  }

  /** Puts the cursor on the transient row -1, above the first line. */
  function GoTop(buf: Buffer): (r: Buffer)
    ensures r.lines == buf.lines && r.cursor == Pos(-1, 0)
    ensures LineAt(r.lines, r.cursor.row) == ""
  {
    Buffer(buf.lines, Pos(-1, 0))
  }

  /** Puts the cursor on the transient row just below the last line. */
  function GoBottom(buf: Buffer): (r: Buffer)
    ensures r.lines == buf.lines && r.cursor == Pos(|buf.lines|, 0)
    ensures LineAt(r.lines, r.cursor.row) == ""
  {
    Buffer(buf.lines, Pos(|buf.lines|, 0))
  }

  /** The index of the match of `/\w/` in `s`: its leftmost word character. */
  function SearchWordChar(s: string): (m: Option<nat>)
    ensures m.None? <==> NonWordRun(s, 0, |s|)
    ensures m.Some? ==> m.value < |s| && IsWordChar(s[m.value]) && NonWordRun(s, 0, m.value)
    decreases |s|
  {
    if s == [] then None
    else if IsWordChar(s[0]) then Some(0)
    else
      match SearchWordChar(s[1..])
      case None => None
      case Some(i) => Some(i + 1)
  }

  /** The index of the match of `/\w(?=\W*$)/` in `s`, searching left to right from `from`. */
  function SearchWordBeforeTail(s: string, from: nat): (m: Option<nat>)
    requires from <= |s|
    ensures m.Some? ==> from <= m.value < |s| && IsWordChar(s[m.value]) && NonWordRun(s, m.value + 1, |s|)
    ensures m.None? ==> NonWordRun(s, from, |s|)
    decreases |s| - from
  {
    if from == |s| then None
    else if IsWordChar(s[from]) && NonWordRun(s, from + 1, |s|) then Some(from)
    else
      var m := SearchWordBeforeTail(s, from + 1);
      assert m.None? ==> !IsWordChar(s[from]);
      m
  }

  /**
   * Moves the cursor to the next word character after it on the same line,
   * skipping only non-word characters; without one the buffer is returned as
   * it is.
   */
  function WordForward(buf: Buffer): (r: Buffer)
    ensures r.lines == buf.lines && r.cursor.row == buf.cursor.row
    ensures var col, line := buf.cursor.col, LineAt(buf.lines, buf.cursor.row);
            if col + 1 <= |line| && !NonWordRun(line, col + 1, |line|) then
              col < r.cursor.col < |line| && IsWordChar(line[r.cursor.col])
              && NonWordRun(line, col + 1, r.cursor.col)
            else
              r == buf
  {
    var row, col := buf.cursor.row, buf.cursor.col;
    var line := LineAt(buf.lines, row);
    var rest := SliceFrom(line, col + 1);
    match SearchWordChar(rest)
    case None => buf
    case Some(i) =>
      var idx := IndexOf(rest, rest[i]);
      assert IsWordChar(rest[idx]);
      assert idx == i;
      Buffer(buf.lines, Pos(row, col + 1 + idx))
  }

  /**
   * Moves the cursor back to the last word character before it on the same
   * line (not to the start of that word); without one the buffer is returned
   * as it is.
   */
  function WordBackward(buf: Buffer): (r: Buffer)
    ensures r.lines == buf.lines && r.cursor.row == buf.cursor.row
    ensures var line := LineAt(buf.lines, buf.cursor.row);
            var end := Min(buf.cursor.col, |line|);
            if !NonWordRun(line, 0, end) then
              r.cursor.col < end && IsWordChar(line[r.cursor.col])
              && NonWordRun(line, r.cursor.col + 1, end)
            else
              r == buf
  {
    var row, col := buf.cursor.row, buf.cursor.col;
    var line := LineAt(buf.lines, row);
    var left := SliceTo(line, col);
    match SearchWordBeforeTail(left, 0)
    case None => buf
    case Some(i) =>
      var idx := LastIndexOf(left, left[i]);
      assert IsWordChar(left[idx]);
      assert idx == i;
      Buffer(buf.lines, Pos(row, Max(0, idx)))
  }

  /** From the transient row above the buffer, splice counts from the end: the last line goes and the cursor stays above. */
  lemma DeleteLineAboveTop(buf: Buffer, count: int)
    requires |buf.lines| >= 2 && buf.cursor.row == -1
    ensures var r := DeleteLine(buf, count);
            r.cursor == Pos(-1, 0)
            && (count >= 1 ==> r.lines == buf.lines[..|buf.lines| - 1])
            && (count <= 0 ==> r.lines == buf.lines)
  {
  }

  /** From the transient row below the buffer nothing is deleted and the cursor comes back to the last line. */
  lemma DeleteLineBelowBottom(buf: Buffer, count: int)
    requires |buf.lines| >= 2 && buf.cursor.row == |buf.lines|
    ensures var r := DeleteLine(buf, count);
            r.lines == buf.lines && r.cursor.row == |buf.lines| - 1
            && r.cursor.col == Min(buf.cursor.col, |buf.lines[|buf.lines| - 1]|)
  {
  }

  /**
   * For every cursor row the engine produces, deleting lines leaves at least
   * one line unless the cursor is on the first of two or more lines and the
   * count covers them all: then the buffer ends up with no line at all.
   */
  lemma DeleteLineKeepsALine(buf: Buffer, count: int)
    requires |buf.lines| >= 1 && -1 <= buf.cursor.row <= |buf.lines|
    ensures |DeleteLine(buf, count).lines| >= 1
            <==> !(buf.cursor.row == 0 && count >= |buf.lines| >= 2)
  {
  }

  /** Three lines deleted from the top of a three-line buffer leave no line, although a one-line buffer is only blanked. */
  lemma DeleteLineCanEmpty()
    ensures DeleteLine(Buffer(["one", "two", "three"], Pos(0, 0)), 3) == Buffer([], Pos(0, 0))
    ensures DeleteLine(Buffer(["one"], Pos(0, 2)), 3) == Buffer([""], Pos(0, 0))
  {
  }

  /** "hello world" with the cursor on the h loses "hello " and keeps "world". */
  lemma DeleteWordExample()
    ensures DeleteWord(Buffer(["hello world"], Pos(0, 0))) == Buffer(["world"], Pos(0, 0))
  {
    var s := "hello world";
    HelloWorldMatch();
    DeleteWordFromStart(s, 6);
    assert s[6..] == "world";
  }

  /** On a one-line buffer with the cursor at column 0, a match of length n deletes the first n characters. */
  lemma DeleteWordFromStart(s: string, n: nat)
    requires WordPrefixLen(s) == Some(n)
    ensures DeleteWord(Buffer([s], Pos(0, 0))) == Buffer([s[n..]], Pos(0, 0))
  {
    var b := Buffer([s], Pos(0, 0));
    assert LineAt(b.lines, b.cursor.row) == s;
    assert SliceFrom(s, b.cursor.col) == s;
    var nextLine := s[..0] + SliceFrom(s, n);
    assert nextLine == s[n..];
    assert DeleteWord(b) == Buffer(b.lines[0 := nextLine], b.cursor);
    assert b.lines[0 := nextLine] == [s[n..]];
  }

  lemma HelloWorldMatch()
    ensures WordPrefixLen("hello world") == Some(6)
  {
    // Each run length spelled out: without these steps the proof exceeds the resource limit.
    var s := "hello world";
    assert RunLen(s, 0, false) == 0;
    assert RunLen(s, 5, true) == 0;
    assert RunLen(s, 4, true) == 1;
    assert RunLen(s, 3, true) == 2;
    assert RunLen(s, 2, true) == 3;
    assert RunLen(s, 1, true) == 4;
    assert RunLen(s, 0, true) == 5;
    assert RunLen(s, 6, false) == 0;
    assert RunLen(s, 5, false) == 1;
  }

  /** The backward jump lands on the last character of the previous word, not on its first. */
  lemma WordBackwardExample()
    ensures WordBackward(Buffer(["hello world"], Pos(0, 6))).cursor == Pos(0, 4)
  {
    var left := "hello ";
    assert SliceTo("hello world", 6) == left;
    assert SearchWordBeforeTail(left, 5) == None;
    assert NonWordRun(left, 5, 6);
    assert SearchWordBeforeTail(left, 4) == Some(4);
    assert !NonWordRun(left, 4, 6);
    assert SearchWordBeforeTail(left, 3) == Some(4);
    assert !NonWordRun(left, 3, 6);
    assert SearchWordBeforeTail(left, 2) == Some(4);
    assert !NonWordRun(left, 2, 6);
    assert SearchWordBeforeTail(left, 1) == Some(4);
    assert !NonWordRun(left, 1, 6);
    assert SearchWordBeforeTail(left, 0) == Some(4);
    assert LastIndexOf(left, 'o') == 4;
  }

  /** On "a, b" the forward jump from the a skips ", " and lands on the b. */
  lemma WordForwardExample()
    ensures WordForward(Buffer(["a, b"], Pos(0, 0))).cursor == Pos(0, 3)
  {
    var rest := ", b";
    assert SliceFrom("a, b", 1) == rest;
    assert SearchWordChar(rest[2..]) == Some(0);
    assert rest[1..][1..] == rest[2..];
    assert SearchWordChar(rest[1..]) == Some(1);
    assert SearchWordChar(rest) == Some(2);
    assert IndexOf(rest[2..], 'b') == 0;
    assert rest[1..][1..] == rest[2..];
    assert IndexOf(rest[1..], 'b') == 1;
    assert IndexOf(rest, 'b') == 2;
  }
}
