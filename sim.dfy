/**
 * The command interpreter: trims the typed keys, splits off a repeat count,
 * dispatches on the exact command string and returns the new buffer with the
 * canonical spelling of the command. Only the yank commands write to the
 * register.
 */
module Sim {
  import opened Runtime
  import opened Types
  import opened BufferOps

  /** `{ buf, command }`: the buffer after the keys and the canonical command. */
  datatype Keys = Keys(buf: Buffer, command: string)

  /** One call of the interpreter as a value: its result and what the register holds afterwards. */
  datatype Step = Step(keys: Keys, register: Option<string>)

  predicate AllDigits(s: string) { forall k :: 0 <= k < |s| ==> IsDigit(s[k]) }

  predicate AllLower(s: string) { forall k :: 0 <= k < |s| ==> IsLower(s[k]) }

  /** `s` has the shape `^(\d+)([a-z]+)$`, its digits being `s[..n]`. */
  predicate IsCountForm(s: string, n: nat)
  {
    1 <= n < |s| && AllDigits(s[..n]) && AllLower(s[n..])
  }

  /** The length of the run of digits that `s` starts with. */
  function DigitRunLen(s: string): (n: nat)
    ensures n <= |s| && AllDigits(s[..n]) && (n == |s| || !IsDigit(s[n]))
    decreases |s|
  {
    if s != [] && IsDigit(s[0]) then
      var m := DigitRunLen(s[1..]);
      assert s[..m + 1] == [s[0]] + s[1..][..m];
      m + 1
    else 0
  }

  /** A string has at most one way of being split into a count and a command. */
  lemma CountFormUnique(s: string)
    ensures forall n: nat :: IsCountForm(s, n) ==> n == DigitRunLen(s)
  {
    var d := DigitRunLen(s);
    forall n: nat | IsCountForm(s, n) ensures n == d {
      assert IsLower(s[n..][0]);
    }
  }

  /** The groups of `s.match(/^(\d+)([a-z]+)$/)`, when it matches. */
  function MatchCount(s: string): (m: Option<(string, string)>)
    ensures m.Some? ==> IsCountForm(s, |m.value.0|) && s == m.value.0 + m.value.1
    ensures m.None? ==> forall n: nat :: !IsCountForm(s, n)
  {
    var n := DigitRunLen(s);
    CountFormUnique(s);
    if 1 <= n < |s| && AllLower(s[n..]) then Some((s[..n], s[n..])) else None
  }

  function DigitValue(c: char): nat
    requires IsDigit(c)
  {
    (c as int) - ('0' as int)
  }

  function Pow10(n: nat): (p: nat)
    ensures p >= 1
  {
    if n == 0 then 1 else 10 * Pow10(n - 1)
  }

  /** `parseInt(d, 10)` for a string of decimal digits: a number with at most |d| decimal places. */
  function Decimal(d: string): (v: nat)
    requires AllDigits(d)
    ensures v < Pow10(|d|)
    decreases |d|
  {
    if d == [] then 0 else 10 * Decimal(d[..|d| - 1]) + DigitValue(d[|d| - 1])
  }

  /** The repeat count and the command of a trimmed input; ParseCountSpec says what they are. */
  function ParseCount(t: string): (r: (nat, string))
    ensures |r.1| <= |t|
    ensures r.1 == t ==> r.0 == 1
  {
    match MatchCount(t)
    case Some((digits, letters)) => (Decimal(digits), letters)
    case None => (1, t)
  }

  /** For `<digits><letters>` the count is the digits' value and the command the letters; otherwise the count is 1 and the command the whole input. */
  lemma ParseCountSpec(t: string)
    ensures forall n: nat :: IsCountForm(t, n) ==> ParseCount(t) == (Decimal(t[..n]), t[n..])
    ensures (forall n: nat :: !IsCountForm(t, n)) ==> ParseCount(t) == (1, t)
  {
    CountFormUnique(t);
  }

  /** The commands that have a case of their own in the dispatch. */
  const Primitives: set<string> := {"h", "j", "k", "l", "0", "$", "gg", "G", "x", "dw", "cw", "yy", "p", "dd", "w", "b"}

  /** The dispatch on the command string, with the register's contents before the call. */
  function Dispatch(b: Buffer, cmd: string, count: nat, stored: Option<string>): (r: Step)
    ensures r.keys.command == (if cmd == "yyp" then "yy p" else cmd)
    ensures r.register == stored || r.register == Some(LineAt(b.lines, b.cursor.row))
  {
    if cmd == "h" then Step(Keys(MoveCursor(b, 0, -1), cmd), stored)
    else if cmd == "j" then Step(Keys(MoveCursor(b, 1, 0), cmd), stored)
    else if cmd == "k" then Step(Keys(MoveCursor(b, -1, 0), cmd), stored)
    else if cmd == "l" then Step(Keys(MoveCursor(b, 0, 1), cmd), stored)
    else if cmd == "0" then Step(Keys(LineStart(b), cmd), stored)
    else if cmd == "$" then Step(Keys(LineEnd(b), cmd), stored)
    else if cmd == "gg" then Step(Keys(GoTop(b), cmd), stored)
    else if cmd == "G" then Step(Keys(GoBottom(b), cmd), stored)
    else if cmd == "x" then Step(Keys(DeleteChar(b), cmd), stored)
    else if cmd == "dw" then Step(Keys(DeleteWord(b), cmd), stored)
    else if cmd == "cw" then Step(Keys(ChangeWord(b), cmd), stored)
    else if cmd == "yy" then Step(Keys(b, cmd), Some(LineAt(b.lines, b.cursor.row)))
    else if cmd == "p" then Step(Keys(PasteBelow(b, stored), cmd), stored)
    else if cmd == "dd" then Step(Keys(DeleteLine(b, count), cmd), stored)
    else if cmd == "w" then Step(Keys(WordForward(b), cmd), stored)
    else if cmd == "b" then Step(Keys(WordBackward(b), cmd), stored)
    else if cmd == "yy p" || cmd == "yyp" then
      var yanked := Some(LineAt(b.lines, b.cursor.row));
      Step(Keys(PasteBelow(b, yanked), "yy p"), yanked)
    else Step(Keys(b, cmd), stored)
  }

  /** `applyKeys` as a value: what a call returns and leaves in the register, given what the register held. */
  function Interpret(buf: Buffer, input: string, stored: Option<string>): (r: Step)
    ensures r.register == stored || r.register == Some(LineAt(buf.lines, buf.cursor.row))
  {
    var (count, cmd) := ParseCount(Trim(input));
    Dispatch(buf, cmd, count, stored)
  }

  /** `applyKeys`: the result and the register's new contents are those of Interpret. */
  method ApplyKeys(buf: Buffer, input: string, register: Register) returns (result: Keys)
    modifies register
    ensures var step := Interpret(buf, input, old(register.line));
            result == step.keys && register.line == step.register
  {
    var b := buf;
    var cmd := Trim(input);
    var countMatch := MatchCount(cmd);
    var count: nat := 1;
    if countMatch.Some? {
      count := Decimal(countMatch.value.0);
      cmd := countMatch.value.1;
    }
    if cmd == "h" { b := MoveCursor(b, 0, -1); }
    else if cmd == "j" { b := MoveCursor(b, 1, 0); }
    else if cmd == "k" { b := MoveCursor(b, -1, 0); }
    else if cmd == "l" { b := MoveCursor(b, 0, 1); }
    else if cmd == "0" { b := LineStart(b); }
    else if cmd == "$" { b := LineEnd(b); }
    else if cmd == "gg" { b := GoTop(b); }
    else if cmd == "G" { b := GoBottom(b); }
    else if cmd == "x" { b := DeleteChar(b); }
    else if cmd == "dw" { b := DeleteWord(b); }
    else if cmd == "cw" { b := ChangeWord(b); }
    else if cmd == "yy" { YankLine(b, register); }
    else if cmd == "p" { b := PasteBelow(b, register.line); }
    else if cmd == "dd" { b := DeleteLine(b, count); }
    else if cmd == "w" { b := WordForward(b); }
    else if cmd == "b" { b := WordBackward(b); }
    else if cmd == "yy p" || cmd == "yyp" {
      YankLine(b, register);
      b := PasteBelow(b, register.line);
      cmd := "yy p";
    }
    result := Keys(b, cmd);
  }

  /** A count prefix always starts with a digit. */
  lemma CountFormStartsWithDigit(s: string)
    ensures forall n: nat :: IsCountForm(s, n) ==> IsDigit(s[0])
  {
    forall n: nat | IsCountForm(s, n) ensures IsDigit(s[0]) {
      assert s[..n][0] == s[0];
    }
  }

  /** Only the trimmed keys matter. */
  lemma InterpretTrims(buf: Buffer, input: string, stored: Option<string>)
    ensures Interpret(buf, input, stored) == Interpret(buf, Trim(input), stored)
  {
    TrimIdempotent(input);
  }

  /** White space before or after the keys changes nothing. */
  lemma InterpretIgnoresPadding(buf: Buffer, pre: string, keys: string, post: string, stored: Option<string>)
    requires AllTrimmable(pre) && AllTrimmable(post)
    ensures Interpret(buf, pre + keys + post, stored) == Interpret(buf, keys, stored)
  {
    TrimPadding(pre, keys, post);
  }

  lemma PaddedDeleteLine(buf: Buffer, stored: Option<string>)
    ensures Interpret(buf, " dd ", stored) == Interpret(buf, "dd", stored)
  {
    assert " dd " == " " + "dd" + " ";
    InterpretIgnoresPadding(buf, " ", "dd", " ", stored);
  }

  /** Interpret dispatches on what ParseCount makes of the trimmed keys. */
  lemma InterpretParsed(buf: Buffer, input: string, count: nat, cmd: string, stored: Option<string>)
    requires ParseCount(Trim(input)) == (count, cmd)
    ensures Interpret(buf, input, stored) == Dispatch(buf, cmd, count, stored)
  {
  }

  /** Keys without white space around them that do not start with a digit carry count 1 and are their own command. */
  lemma PlainParse(keys: string)
    requires keys == [] || (!IsTrimmable(keys[0]) && !IsTrimmable(keys[|keys| - 1]))
    requires keys == [] || !IsDigit(keys[0])
    ensures ParseCount(Trim(keys)) == (1, keys)
  {
    TrimUnpadded(keys);
    CountFormStartsWithDigit(keys);
    ParseCountSpec(keys);
  }

  /** Keys without white space around them and without a count are dispatched as they are, with count 1. */
  lemma PlainKeys(buf: Buffer, keys: string, stored: Option<string>)
    requires keys == [] || (!IsTrimmable(keys[0]) && !IsTrimmable(keys[|keys| - 1]))
    requires keys == [] || !IsDigit(keys[0])
    ensures Interpret(buf, keys, stored) == Dispatch(buf, keys, 1, stored)
  {
    PlainParse(keys);
    InterpretParsed(buf, keys, 1, keys, stored);
  }

  // One lemma per key: each unfolds the dispatch for a single literal command.
  // The group lemmas below (MotionKeys, JumpKeys, EditKeys, CountExamples,
  // UnknownExamples) restate these facts together; they are kept apart because
  // the solver proves several literal commands in one goal far more slowly
  // than each on its own.

  lemma KeyH(buf: Buffer, stored: Option<string>)
    ensures Interpret(buf, "h", stored) == Step(Keys(MoveCursor(buf, 0, -1), "h"), stored)
  {
    PlainKeys(buf, "h", stored);
  }

  lemma KeyJ(buf: Buffer, stored: Option<string>)
    ensures Interpret(buf, "j", stored) == Step(Keys(MoveCursor(buf, 1, 0), "j"), stored)
  {
    PlainKeys(buf, "j", stored);
  }

  lemma KeyK(buf: Buffer, stored: Option<string>)
    ensures Interpret(buf, "k", stored) == Step(Keys(MoveCursor(buf, -1, 0), "k"), stored)
  {
    PlainKeys(buf, "k", stored);
  }

  lemma KeyL(buf: Buffer, stored: Option<string>)
    ensures Interpret(buf, "l", stored) == Step(Keys(MoveCursor(buf, 0, 1), "l"), stored)
  {
    PlainKeys(buf, "l", stored);
  }

  lemma KeyDollar(buf: Buffer, stored: Option<string>)
    ensures Interpret(buf, "$", stored) == Step(Keys(LineEnd(buf), "$"), stored)
  {
    PlainKeys(buf, "$", stored);
  }

  lemma KeyGg(buf: Buffer, stored: Option<string>)
    ensures Interpret(buf, "gg", stored) == Step(Keys(GoTop(buf), "gg"), stored)
  {
    PlainKeys(buf, "gg", stored);
  }

  lemma KeyBigG(buf: Buffer, stored: Option<string>)
    ensures Interpret(buf, "G", stored) == Step(Keys(GoBottom(buf), "G"), stored)
  {
    PlainKeys(buf, "G", stored);
  }

  lemma KeyW(buf: Buffer, stored: Option<string>)
    ensures Interpret(buf, "w", stored) == Step(Keys(WordForward(buf), "w"), stored)
  {
    PlainKeys(buf, "w", stored);
  }

  lemma KeyB(buf: Buffer, stored: Option<string>)
    ensures Interpret(buf, "b", stored) == Step(Keys(WordBackward(buf), "b"), stored)
  {
    PlainKeys(buf, "b", stored);
  }

  lemma KeyX(buf: Buffer, stored: Option<string>)
    ensures Interpret(buf, "x", stored) == Step(Keys(DeleteChar(buf), "x"), stored)
  {
    PlainKeys(buf, "x", stored);
  }

  lemma KeyDw(buf: Buffer, stored: Option<string>)
    ensures Interpret(buf, "dw", stored) == Step(Keys(DeleteWord(buf), "dw"), stored)
  {
    PlainKeys(buf, "dw", stored);
  }

  lemma KeyCw(buf: Buffer, stored: Option<string>)
    ensures Interpret(buf, "cw", stored) == Step(Keys(DeleteWord(buf), "cw"), stored)
  {
    PlainKeys(buf, "cw", stored);
  }

  lemma KeyP(buf: Buffer, stored: Option<string>)
    ensures Interpret(buf, "p", stored) == Step(Keys(PasteBelow(buf, stored), "p"), stored)
  {
    PlainKeys(buf, "p", stored);
  }

  lemma KeyDd(buf: Buffer, stored: Option<string>)
    ensures Interpret(buf, "dd", stored) == Step(Keys(DeleteLine(buf, 1), "dd"), stored)
  {
    PlainKeys(buf, "dd", stored);
  }

  lemma KeyYyp(buf: Buffer, stored: Option<string>)
    ensures Interpret(buf, "yyp", stored) == Step(Keys(PasteBelow(buf, Some(LineAt(buf.lines, buf.cursor.row))), "yy p"), Some(LineAt(buf.lines, buf.cursor.row)))
  {
    PlainKeys(buf, "yyp", stored);
  }

  lemma KeyYySpaceP(buf: Buffer, stored: Option<string>)
    ensures Interpret(buf, "yy p", stored) == Step(Keys(PasteBelow(buf, Some(LineAt(buf.lines, buf.cursor.row))), "yy p"), Some(LineAt(buf.lines, buf.cursor.row)))
  {
    PlainKeys(buf, "yy p", stored);
  }

  lemma KeyZz(buf: Buffer, stored: Option<string>)
    ensures Interpret(buf, "zz", stored) == Step(Keys(buf, "zz"), stored)
  {
    PlainKeys(buf, "zz", stored);
  }

  lemma ParseZero()
    ensures ParseCount("0") == (1, "0")
  {
  }

  /** "0" is a digit but not a count: it is the line-start jump. */
  lemma KeyZero(buf: Buffer, stored: Option<string>)
    ensures Interpret(buf, "0", stored) == Step(Keys(LineStart(buf), "0"), stored)
  {
    TrimUnpadded("0");
    ParseZero();
    InterpretParsed(buf, "0", 1, "0", stored);
    DispatchLineStart(buf, stored);
  }

  /** dd dispatches the count to DeleteLine. */
  lemma DispatchDeleteLine(b: Buffer, n: nat, stored: Option<string>)
    ensures Dispatch(b, "dd", n, stored) == Step(Keys(DeleteLine(b, n), "dd"), stored)
  {
  }

  /** yyp yanks and pastes whatever the count. */
  lemma DispatchYankPaste(b: Buffer, n: nat, stored: Option<string>)
    ensures var yanked := Some(LineAt(b.lines, b.cursor.row));
            Dispatch(b, "yyp", n, stored) == Step(Keys(PasteBelow(b, yanked), "yy p"), yanked)
  {
  }

  lemma DispatchLineStart(b: Buffer, stored: Option<string>)
    ensures Dispatch(b, "0", 1, stored) == Step(Keys(LineStart(b), "0"), stored)
  {
  }

  /** A command without a case of its own is echoed and changes nothing. */
  lemma DispatchUnknown(b: Buffer, cmd: string, n: nat, stored: Option<string>)
    requires cmd !in Primitives && cmd != "yy p" && cmd != "yyp"
    ensures Dispatch(b, cmd, n, stored) == Step(Keys(b, cmd), stored)
  {
  }

  /** h, j, k and l move by one column left, one row down, one row up and one column right. */
  lemma MotionKeys(buf: Buffer, stored: Option<string>)
    ensures Interpret(buf, "h", stored) == Step(Keys(MoveCursor(buf, 0, -1), "h"), stored)
    ensures Interpret(buf, "j", stored) == Step(Keys(MoveCursor(buf, 1, 0), "j"), stored)
    ensures Interpret(buf, "k", stored) == Step(Keys(MoveCursor(buf, -1, 0), "k"), stored)
    ensures Interpret(buf, "l", stored) == Step(Keys(MoveCursor(buf, 0, 1), "l"), stored)
  {
    KeyH(buf, stored);
    KeyJ(buf, stored);
    KeyK(buf, stored);
    KeyL(buf, stored);
  }

  /** 0, $, gg, G, w and b are the jumps of the same name. */
  lemma JumpKeys(buf: Buffer, stored: Option<string>)
    ensures Interpret(buf, "0", stored) == Step(Keys(LineStart(buf), "0"), stored)
    ensures Interpret(buf, "$", stored) == Step(Keys(LineEnd(buf), "$"), stored)
    ensures Interpret(buf, "gg", stored) == Step(Keys(GoTop(buf), "gg"), stored)
    ensures Interpret(buf, "G", stored) == Step(Keys(GoBottom(buf), "G"), stored)
    ensures Interpret(buf, "w", stored) == Step(Keys(WordForward(buf), "w"), stored)
    ensures Interpret(buf, "b", stored) == Step(Keys(WordBackward(buf), "b"), stored)
  {
    KeyZero(buf, stored);
    KeyDollar(buf, stored);
    KeyGg(buf, stored);
    KeyBigG(buf, stored);
    KeyW(buf, stored);
    KeyB(buf, stored);
  }

  /** x, dw, cw, p and dd are the edits of the same name; cw is dw, and a bare dd deletes one line. */
  lemma EditKeys(buf: Buffer, stored: Option<string>)
    ensures Interpret(buf, "x", stored) == Step(Keys(DeleteChar(buf), "x"), stored)
    ensures Interpret(buf, "dw", stored) == Step(Keys(DeleteWord(buf), "dw"), stored)
    ensures Interpret(buf, "cw", stored) == Step(Keys(DeleteWord(buf), "cw"), stored)
    ensures Interpret(buf, "p", stored) == Step(Keys(PasteBelow(buf, stored), "p"), stored)
    ensures Interpret(buf, "dd", stored) == Step(Keys(DeleteLine(buf, 1), "dd"), stored)
  {
    KeyX(buf, stored);
    KeyDw(buf, stored);
    KeyCw(buf, stored);
    KeyP(buf, stored);
    KeyDd(buf, stored);
  }

  /** yy leaves the buffer as it is, answers "yy" and puts the cursor's line in the register. */
  lemma YankKeys(buf: Buffer, stored: Option<string>)
    ensures Interpret(buf, "yy", stored) == Step(Keys(buf, "yy"), Some(LineAt(buf.lines, buf.cursor.row)))
  {
    PlainKeys(buf, "yy", stored);
  }

  /** `<digits><letters>` splits into the digits' value and the letters. */
  lemma CountedParse(digits: string, cmd: string)
    requires |digits| >= 1 && AllDigits(digits) && |cmd| >= 1 && AllLower(cmd)
    ensures ParseCount(Trim(digits + cmd)) == (Decimal(digits), cmd)
  {
    var s := digits + cmd;
    assert s[..|digits|] == digits && s[|digits|..] == cmd;
    assert IsCountForm(s, |digits|);
    assert IsDigit(s[0]) && IsLower(s[|s| - 1]);
    TrimUnpadded(s);
    ParseCountSpec(s);
  }

  /** `<digits><letters>` dispatches the letters with the digits' value as count. */
  lemma CountedKeys(buf: Buffer, digits: string, cmd: string, stored: Option<string>)
    requires |digits| >= 1 && AllDigits(digits) && |cmd| >= 1 && AllLower(cmd)
    ensures Interpret(buf, digits + cmd, stored) == Dispatch(buf, cmd, Decimal(digits), stored)
  {
    CountedParse(digits, cmd);
    InterpretParsed(buf, digits + cmd, Decimal(digits), cmd, stored);
  }

  /** Lower-case letters alone dispatch with count 1. */
  lemma LowerKeys(buf: Buffer, cmd: string, stored: Option<string>)
    requires |cmd| >= 1 && AllLower(cmd)
    ensures Interpret(buf, cmd, stored) == Dispatch(buf, cmd, 1, stored)
  {
    assert IsLower(cmd[0]) && IsLower(cmd[|cmd| - 1]);
    PlainKeys(buf, cmd, stored);
  }

  /** Every command except dd ignores the count. */
  lemma DispatchCountOnlyDd(b: Buffer, cmd: string, n: nat, m: nat, stored: Option<string>)
    requires cmd != "dd"
    ensures Dispatch(b, cmd, n, stored) == Dispatch(b, cmd, m, stored)
  {
  }

  /** A count is accepted before any lower-case command, but only dd uses it. */
  lemma CountIgnoredUnlessDd(buf: Buffer, digits: string, cmd: string, stored: Option<string>)
    requires |digits| >= 1 && AllDigits(digits) && |cmd| >= 1 && AllLower(cmd) && cmd != "dd"
    ensures Interpret(buf, digits + cmd, stored) == Interpret(buf, cmd, stored)
  {
    CountedKeys(buf, digits, cmd, stored);
    LowerKeys(buf, cmd, stored);
    DispatchCountOnlyDd(buf, cmd, Decimal(digits), 1, stored);
  }

  /** `<digits>dd` deletes as many lines as the digits say and answers "dd". */
  lemma CountedDeleteLine(buf: Buffer, digits: string, stored: Option<string>)
    requires |digits| >= 1 && AllDigits(digits)
    ensures Interpret(buf, digits + "dd", stored) == Step(Keys(DeleteLine(buf, Decimal(digits)), "dd"), stored)
  {
    assert AllLower("dd");
    CountedKeys(buf, digits, "dd", stored);
    DispatchDeleteLine(buf, Decimal(digits), stored);
  }

  lemma Parse3dd()
    ensures ParseCount("3dd") == (3, "dd")
  {
  }

  lemma Key3dd(buf: Buffer, stored: Option<string>)
    ensures Interpret(buf, "3dd", stored) == Step(Keys(DeleteLine(buf, 3), "dd"), stored)
  {
    TrimUnpadded("3dd");
    Parse3dd();
    InterpretParsed(buf, "3dd", 3, "dd", stored);
    DispatchDeleteLine(buf, 3, stored);
  }

  lemma Parse10dd()
    ensures ParseCount("10dd") == (10, "dd")
  {
    assert "10dd"[1..] == "0dd" && "0dd"[1..] == "dd";
    assert DigitRunLen("10dd") == 2;
    assert "10dd"[..2] == "10" && "10dd"[2..] == "dd";
    assert MatchCount("10dd") == Some(("10", "dd"));
    assert "10"[..1] == "1" && "1"[..0] == "";
    assert Decimal("10") == 10;
  }

  lemma Key10dd(buf: Buffer, stored: Option<string>)
    ensures Interpret(buf, "10dd", stored) == Step(Keys(DeleteLine(buf, 10), "dd"), stored)
  {
    TrimUnpadded("10dd");
    Parse10dd();
    InterpretParsed(buf, "10dd", 10, "dd", stored);
    DispatchDeleteLine(buf, 10, stored);
  }

  lemma Parse3h()
    ensures ParseCount("3h") == (3, "h")
  {
  }

  lemma Key3h(buf: Buffer, stored: Option<string>)
    ensures Interpret(buf, "3h", stored) == Interpret(buf, "h", stored)
  {
    TrimUnpadded("3h");
    Parse3h();
    InterpretParsed(buf, "3h", 3, "h", stored);
    PlainKeys(buf, "h", stored);
    DispatchCountOnlyDd(buf, "h", 3, 1, stored);
  }

  lemma CountExamples(buf: Buffer, stored: Option<string>)
    ensures Interpret(buf, "3dd", stored) == Step(Keys(DeleteLine(buf, 3), "dd"), stored)
    ensures Interpret(buf, "10dd", stored) == Step(Keys(DeleteLine(buf, 10), "dd"), stored)
    ensures Interpret(buf, "3h", stored) == Interpret(buf, "h", stored)
  {
    Key3dd(buf, stored);
    Key10dd(buf, stored);
    Key3h(buf, stored);
  }

  lemma Parse3yyp()
    ensures ParseCount("3yyp") == (3, "yyp")
  {
  }

  lemma Key3yyp(buf: Buffer, stored: Option<string>)
    ensures var yanked := Some(LineAt(buf.lines, buf.cursor.row));
            Interpret(buf, "3yyp", stored) == Step(Keys(PasteBelow(buf, yanked), "yy p"), yanked)
  {
    TrimUnpadded("3yyp");
    Parse3yyp();
    InterpretParsed(buf, "3yyp", 3, "yyp", stored);
    DispatchYankPaste(buf, 3, stored);
  }

  /** yyp, yy p and 3yyp all yank the cursor's line, paste it below and answer "yy p". */
  lemma YankPasteComposite(buf: Buffer, stored: Option<string>)
    ensures var yanked := Some(LineAt(buf.lines, buf.cursor.row));
            var expected := Step(Keys(PasteBelow(buf, yanked), "yy p"), yanked);
            Interpret(buf, "yyp", stored) == expected
            && Interpret(buf, "yy p", stored) == expected
            && Interpret(buf, "3yyp", stored) == expected
  {
    KeyYyp(buf, stored);
    KeyYySpaceP(buf, stored);
    Key3yyp(buf, stored);
  }

  /** The composite is yy followed by p. */
  lemma CompositeIsYankThenPaste(buf: Buffer, stored: Option<string>)
    ensures var yank := Interpret(buf, "yy", stored);
            var paste := Interpret(yank.keys.buf, "p", yank.register);
            Interpret(buf, "yy p", stored) == Step(Keys(paste.keys.buf, "yy p"), paste.register)
  {
    YankKeys(buf, stored);
    EditKeys(buf, Some(LineAt(buf.lines, buf.cursor.row)));
    YankPasteComposite(buf, stored);
  }

  /** Yank then paste on a row of the buffer puts a copy of that row right below it and the cursor at its start. */
  lemma YankPasteCopiesLine(buf: Buffer, stored: Option<string>)
    requires 0 <= buf.cursor.row < |buf.lines|
    ensures var row, r := buf.cursor.row, Interpret(buf, "yyp", stored).keys.buf;
            |r.lines| == |buf.lines| + 1
            && r.lines[row] == r.lines[row + 1] == buf.lines[row]
            && r.lines[..row + 1] == buf.lines[..row + 1] && r.lines[row + 2..] == buf.lines[row + 1..]
            && r.cursor == Pos(row + 1, 0)
  {
    YankPasteComposite(buf, stored);
    PasteOwnLine(buf);
  }

  /** Keys that name no command leave buffer and register as they are and are echoed without their count. */
  lemma UnknownKeysAreNoOp(buf: Buffer, input: string, stored: Option<string>)
    requires var cmd := ParseCount(Trim(input)).1; cmd !in Primitives && cmd != "yy p" && cmd != "yyp"
    ensures Interpret(buf, input, stored) == Step(Keys(buf, ParseCount(Trim(input)).1), stored)
  {
    var (count, cmd) := ParseCount(Trim(input));
    InterpretParsed(buf, input, count, cmd, stored);
    DispatchUnknown(buf, cmd, count, stored);
  }

  lemma Parse3zz()
    ensures ParseCount("3zz") == (3, "zz")
  {
  }

  lemma Key3zz(buf: Buffer, stored: Option<string>)
    ensures Interpret(buf, "3zz", stored) == Step(Keys(buf, "zz"), stored)
  {
    TrimUnpadded("3zz");
    Parse3zz();
    assert "zz" !in Primitives;
    DispatchUnknown(buf, "zz", 3, stored);
  }

  lemma Parse3G()
    ensures ParseCount("3G") == (1, "3G")
  {
  }

  /** An upper-case command is not a count form: the digit stays part of it. */
  lemma Key3G(buf: Buffer, stored: Option<string>)
    ensures Interpret(buf, "3G", stored) == Step(Keys(buf, "3G"), stored)
  {
    TrimUnpadded("3G");
    Parse3G();
    InterpretParsed(buf, "3G", 1, "3G", stored);
    DispatchUnknown(buf, "3G", 1, stored);
  }

  lemma Parse2yySpaceP()
    ensures ParseCount("2yy p") == (1, "2yy p")
  {
    assert DigitRunLen("2yy p") == 1;
    assert "2yy p"[1..][2] == ' ';
  }

  /** A space is not a letter, so a count before "yy p" makes unknown keys. */
  lemma Key2yySpaceP(buf: Buffer, stored: Option<string>)
    ensures Interpret(buf, "2yy p", stored) == Step(Keys(buf, "2yy p"), stored)
  {
    TrimUnpadded("2yy p");
    Parse2yySpaceP();
    InterpretParsed(buf, "2yy p", 1, "2yy p", stored);
    DispatchUnknown(buf, "2yy p", 1, stored);
  }

  lemma UnknownExamples(buf: Buffer, stored: Option<string>)
    ensures Interpret(buf, "zz", stored) == Step(Keys(buf, "zz"), stored)
    ensures Interpret(buf, "3zz", stored) == Step(Keys(buf, "zz"), stored)
    ensures Interpret(buf, "3G", stored) == Step(Keys(buf, "3G"), stored)
    ensures Interpret(buf, "2yy p", stored) == Step(Keys(buf, "2yy p"), stored)
  {
    KeyZz(buf, stored);
    Key3zz(buf, stored);
    Key3G(buf, stored);
    Key2yySpaceP(buf, stored);
  }

  /** The register after a dispatch: the cursor's line for the yank commands, what it held for every other. */
  lemma DispatchRegister(b: Buffer, cmd: string, count: nat, stored: Option<string>)
    ensures var r := Dispatch(b, cmd, count, stored).register;
            (cmd in {"yy", "yy p", "yyp"} ==> r == Some(LineAt(b.lines, b.cursor.row)))
            && (cmd !in {"yy", "yy p", "yyp"} ==> r == stored)
  {
  }

  /** Only yy and the yank-and-paste composite write to the register, and they write the cursor's line. */
  lemma RegisterOnlyWrittenByYank(buf: Buffer, input: string, stored: Option<string>)
    ensures var cmd, r := ParseCount(Trim(input)).1, Interpret(buf, input, stored).register;
            (cmd in {"yy", "yy p", "yyp"} ==> r == Some(LineAt(buf.lines, buf.cursor.row)))
            && (cmd !in {"yy", "yy p", "yyp"} ==> r == stored)
  {
    var (count, cmd) := ParseCount(Trim(input));
    InterpretParsed(buf, input, count, cmd, stored);
    DispatchRegister(buf, cmd, count, stored);
  }

  /** gg puts the cursor above the text whatever its row; G then puts it below the unchanged lines. */
  lemma TopThenBottom(buf: Buffer, stored: Option<string>)
    ensures var top := Interpret(buf, "gg", stored);
            top.keys.buf == Buffer(buf.lines, Pos(-1, 0))
            && Interpret(top.keys.buf, "G", top.register).keys.buf == Buffer(buf.lines, Pos(|buf.lines|, 0))
  {
    JumpKeys(buf, stored);
    JumpKeys(Buffer(buf.lines, Pos(-1, 0)), stored);
  }

  /** Every command keeps a row from -1 to the line count in that band. */
  lemma DispatchRowInBand(b: Buffer, cmd: string, count: nat, stored: Option<string>)
    requires -1 <= b.cursor.row <= |b.lines|
    ensures var r := Dispatch(b, cmd, count, stored).keys.buf;
            -1 <= r.cursor.row <= |r.lines|
  {
  }

  /** A cursor row from -1 to the line count stays in that band whatever the keys. */
  lemma RowStaysInBand(buf: Buffer, input: string, stored: Option<string>)
    requires -1 <= buf.cursor.row <= |buf.lines|
    ensures var r := Interpret(buf, input, stored).keys.buf;
            -1 <= r.cursor.row <= |r.lines|
  {
    var (count, cmd) := ParseCount(Trim(input));
    InterpretParsed(buf, input, count, cmd, stored);
    DispatchRowInBand(buf, cmd, count, stored);
  }

  /** Every command but gg and G keeps a row inside the buffer inside it, unless dd removed every line. */
  lemma DispatchRowInBuffer(b: Buffer, cmd: string, count: nat, stored: Option<string>)
    requires 0 <= b.cursor.row < |b.lines|
    requires cmd !in {"gg", "G"}
    ensures var r := Dispatch(b, cmd, count, stored).keys.buf;
            0 <= r.cursor.row < |r.lines| || r.lines == []
  {
  }

  /** From a row inside the buffer, every command except gg and G keeps the cursor inside, unless dd removed every line. */
  lemma RowStaysInBuffer(buf: Buffer, input: string, stored: Option<string>)
    requires 0 <= buf.cursor.row < |buf.lines|
    requires ParseCount(Trim(input)).1 !in {"gg", "G"}
    ensures var r := Interpret(buf, input, stored).keys.buf;
            0 <= r.cursor.row < |r.lines| || r.lines == []
  {
    var (count, cmd) := ParseCount(Trim(input));
    InterpretParsed(buf, input, count, cmd, stored);
    DispatchRowInBuffer(buf, cmd, count, stored);
  }
}
