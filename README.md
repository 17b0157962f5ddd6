# Vim arcade engine in Dafny

This project models the editing engine of a small game that teaches a subset
of vim. The game shows a text buffer, the player types keys, and the engine
computes the buffer after those keys together with a canonical spelling of the
command. Proofs about the model are included.

- A buffer is a list of lines plus a cursor `(row, col)`.
- The row is an integer. It may sit on the transient rows -1 (above the text,
  after `gg`) or the line count (below the text, after `G`). The primitives
  that read a line use `lines[row] ?? ''` (`LineAt`), so a row outside the
  buffer reads as an empty line. Those primitives are `moveCursor`,
  `setCursor`, `deleteChar`, `deleteWord`, `yankLine`, `lineEnd`,
  `wordForward` and `wordBackward`. `deleteLine` reads the line at its new row
  after the splice.
- A one-slot register `{ line?: string }` carries yanked text between calls.

The model has six modules:

- `Runtime`: the JavaScript built-ins the engine leans on, written out
  explicitly. This covers the ASCII `\w` class, `String.prototype.trim` and its
  white-space set, the relative-index and clamping rules of
  `Array.prototype.splice` and `slice`, and `indexOf`/`lastIndexOf` for a
  one-character needle.
- `Types`: `Pos` and `Buffer`.
- `BufferOps` (lib/game/engine/buffer.ts): each primitive is a function
  from buffer to buffer. The exception is `yankLine`, which writes the caller's
  register in place. It is a module-level method that takes a `Register`
  object. The class holds the register's one field.
- `Sim` (lib/game/engine/sim.ts): `applyKeys` is the method `ApplyKeys`. It
  updates the register the way the source does: the locals `b`, `cmd` and
  `count` are reassigned through the switch, and `yy` and the composite write
  the register. Its contract ties it to the pure function `Interpret`, which
  maps the input and the register's old contents to the result and the
  register's new contents. The properties of the interpreter are lemmas about
  `Interpret`:
  - trimming;
  - how counts are parsed;
  - which primitive each command runs;
  - the composite `yy p`/`yyp`;
  - echoing unknown input;
  - which commands write the register;
  - the bands the cursor row stays in.
- `Scoring` (lib/game/engine/scoring.ts): the points rule.
- `Questions` (lib/game/engine/questions.ts): the nineteen-entry question bank
  and `pickRandom`. The order the randomised sort leaves the spread copy in is
  a parameter, and it may be any reordering of the bank.

deleteLine is modelled as written. The comment at
lib/game/engine/buffer.ts:65 says the code avoids an empty buffer, but the
guard only covers a one-line buffer. With the cursor on row 0 of a buffer of
two or more lines, a count that covers every line leaves no lines at all.
`BufferOps.DeleteLineKeepsALine` states exactly when this happens (in both
directions), and `BufferOps.DeleteLineCanEmpty` gives an instance. The rest of
the model keeps this behaviour, because the interpreter calls the code as it
stands.

## Model

| member | source | states |
|---|---|---|
| `Runtime.Trim` | lib/game/engine/sim.ts:11 | `input.trim()` returns a contiguous piece of the input, framed on both sides by white space only, that neither starts nor ends with white space |
| `Runtime.TrimIdempotent` | lib/game/engine/sim.ts:11 | trimming twice is trimming once |
| `Runtime.TrimPadding` | lib/game/engine/sim.ts:11 | white space added before or after a string never changes its trim |
| `Runtime.IndexOf` | lib/game/engine/buffer.ts:103 | `indexOf` gives -1 exactly when the character is absent, otherwise its first position |
| `Runtime.LastIndexOf` | lib/game/engine/buffer.ts:113 | `lastIndexOf` gives -1 exactly when the character is absent, otherwise its last position |
| `Runtime.Splice` | lib/game/engine/buffer.ts:72 | `splice` keeps everything before the relative start and inserts the items there. After them comes the rest of the array, less min(deleteCount, elements from the start on) elements, or none for a count that is not positive. The same rule serves the insertion at buffer.ts:57 |
| `Runtime.SliceFromClamped` | lib/game/engine/buffer.ts:35 | `s.slice(col)` is the suffix of `s` left after its first `col` characters (empty when `col` is past the end), used also at buffer.ts:38 and :100 |
| `Runtime.SliceToClamped` | lib/game/engine/buffer.ts:110 | `s.slice(0, col)` is the prefix of `s` holding its first `col` characters, or all of `s` when it is shorter |
| `Runtime.RelativeIndex` | lib/game/engine/buffer.ts:57 | a splice start or slice end lands in 0..length. A negative index k counts from the end, giving max(0, length + k); any other index gives min(k, length) |
| `BufferOps.Register.constructor` | app/game/page.tsx:43 | the register `{ line?: string }` the game creates as `{}` holds no line |
| `BufferOps.LineAt` | lib/game/engine/buffer.ts:9 | `lines[row] ?? ''` is the row's line for a row inside the buffer, and the empty line for any other row |
| `BufferOps.Clamp` | lib/game/engine/buffer.ts:3-5 | the clamp is the nearest point of [min, max] to n when min <= max, and min otherwise |
| `BufferOps.MoveCursor` | lib/game/engine/buffer.ts:7-12 | a move keeps the lines. On a non-empty buffer the row is the target row clamped to 0..lines-1. The column is the target column clamped to 0..max(0, length-1) of the destination line |
| `BufferOps.SetCursor` | lib/game/engine/buffer.ts:14-19 | the same clamping as a move, for an absolute target |
| `BufferOps.DeleteChar` | lib/game/engine/buffer.ts:21-30 | on a non-empty line with the column inside it, exactly the character at the column goes: the line is one shorter, putting the character back restores it, and the other lines and the cursor stay. Otherwise the buffer is returned unchanged |
| `BufferOps.WordPrefixLen` | lib/game/engine/buffer.ts:35-37 | when the match exists its length is positive and at most the length of the rest of the line. WordPrefixLenIsLongestMatch states which prefix it is |
| `BufferOps.DeleteWord` | lib/game/engine/buffer.ts:32-42 | delete word keeps the cursor and the number of lines, and changes no line other than the cursor's. DeleteWordRemovesLongestMatch states what that line becomes |
| `BufferOps.WordPrefixLenIsLongestMatch` | lib/game/engine/buffer.ts:35 | the computed match length is the greedy match of `^\W*\w+\W*`, meaning the longest prefix that matches. There is no match exactly when the rest holds no word character |
| `BufferOps.DeleteWordRemovesLongestMatch` | lib/game/engine/buffer.ts:32-42 | delete word removes exactly the longest matching prefix of the rest of the line, leaving the cursor and the other lines. Without a match the buffer is returned unchanged |
| `BufferOps.DeleteWordFromStart` | lib/game/engine/buffer.ts:35-41 | on a one-line buffer with the cursor at column 0, a match of length n removes exactly the first n characters |
| `BufferOps.DeleteWordExample` | lib/game/engine/buffer.ts:32-42 | "hello world" at column 0 becomes "world" |
| `BufferOps.ChangeWord` | lib/game/engine/buffer.ts:44-47 | change word always equals delete word |
| `BufferOps.YankLine` | lib/game/engine/buffer.ts:49-51 | the register then holds the cursor's line, or the empty line for a row outside the buffer |
| `BufferOps.StoredLine` | lib/game/engine/buffer.ts:56 | `register.line ?? ''` is the stored line, or the empty line for an empty register |
| `BufferOps.PasteBelow` | lib/game/engine/buffer.ts:53-59 | one more line, holding the register's line (or ''). Removing it gives back the old lines in order. For rows -1..lines-1 it sits at row+1; below the buffer it is appended. The cursor goes to (row+1, 0) |
| `BufferOps.PasteOwnLine` | lib/game/engine/buffer.ts:53-58 | pasting a row's own line below it duplicates that row, keeps the rest in order and puts the cursor at the start of the copy |
| `BufferOps.DeleteLine` | lib/game/engine/buffer.ts:61-76 | a one-line buffer becomes [""] at (0,0) for any count. Otherwise, for a row inside the buffer, exactly min(count, lines from row on) lines go from the row on. The row stays if a line is left there, else it is max(0, new length-1). The column is min(old column, new line's length) |
| `BufferOps.DeleteLineAboveTop` | lib/game/engine/buffer.ts:72 | from row -1, splice counts from the end: a positive count removes the last line and the cursor stays at (-1,0) |
| `BufferOps.DeleteLineBelowBottom` | lib/game/engine/buffer.ts:72-75 | from the row below the text nothing is deleted and the cursor returns to the last line |
| `BufferOps.DeleteLineKeepsALine` | lib/game/engine/buffer.ts:65-75 | at least one line is left exactly when it is not the case that row = 0 and count >= lines >= 2 |
| `BufferOps.DeleteLineCanEmpty` | lib/game/engine/buffer.ts:65-72 | 3dd at the top of a three-line buffer leaves no line; on a one-line buffer it only blanks the line |
| `BufferOps.LineStart` | lib/game/engine/buffer.ts:78-80 | same lines and row, column 0 |
| `BufferOps.LineEnd` | lib/game/engine/buffer.ts:82-85 | same lines and row; the column is the last character's, or 0 on an empty line |
| `BufferOps.GoTop` | lib/game/engine/buffer.ts:87-90 | same lines, cursor (-1, 0), on a row that reads as empty |
| `BufferOps.GoBottom` | lib/game/engine/buffer.ts:92-95 | same lines, cursor (line count, 0), on a row that reads as empty |
| `BufferOps.SearchWordChar` | lib/game/engine/buffer.ts:101 | `/\w/` fails exactly when there is no word character, otherwise it finds the first |
| `BufferOps.SearchWordBeforeTail` | lib/game/engine/buffer.ts:111 | `/\w(?=\W*$)/` finds a word character followed only by non-word characters, and fails only when there is no word character |
| `BufferOps.WordForward` | lib/game/engine/buffer.ts:97-105 | lines and row never change. If a word character follows the cursor, the new column is the first one after it, so everything strictly between is non-word. Otherwise the buffer is unchanged |
| `BufferOps.WordForwardExample` | lib/game/engine/buffer.ts:97-105 | on "a, b" the jump from column 0 lands on column 3 |
| `BufferOps.WordBackward` | lib/game/engine/buffer.ts:107-115 | lines and row never change. If a word character precedes the cursor, the new column is the last one before it, so everything after it up to the cursor is non-word. Otherwise the buffer is unchanged |
| `BufferOps.WordBackwardExample` | lib/game/engine/buffer.ts:107-115 | on "hello world" the jump from column 6 lands on the o at column 4, not on the word's start |
| `Sim.MatchCount` | lib/game/engine/sim.ts:14 | `^(\d+)([a-z]+)$` matches exactly when the input splits into digits and lower-case letters; the groups are those two parts |
| `Sim.CountFormUnique` | lib/game/engine/sim.ts:14 | the split into digits and letters is unique |
| `Sim.Decimal` | lib/game/engine/sim.ts:17 | `parseInt(digits, 10)` is below 10 to the number of digits |
| `Sim.ParseCount` | lib/game/engine/sim.ts:13-19 | the command is never longer than the trimmed keys, and keys left whole carry count 1. ParseCountSpec gives both parts exactly |
| `Sim.ParseCountSpec` | lib/game/engine/sim.ts:13-19 | for `<digits><letters>` the count is the decimal value of the digits and the command is the letters; otherwise the count is 1 and the command is the whole trimmed input |
| `Sim.Dispatch` | lib/game/engine/sim.ts:21-46 | the switch answers the command it was given, or "yy p" for "yyp". The register afterwards holds its old contents or the cursor's line. The lemmas below give each case |
| `Sim.Interpret` | lib/game/engine/sim.ts:9-49 | for any keys, the register afterwards holds its old contents or the cursor's line |
| `Sim.ApplyKeys` | lib/game/engine/sim.ts:9-49 | applyKeys returns the buffer and command of `Interpret` and leaves in the register what `Interpret` says it holds afterwards |
| `Sim.InterpretTrims` | lib/game/engine/sim.ts:11 | only the trimmed input matters |
| `Sim.InterpretIgnoresPadding` | lib/game/engine/sim.ts:11 | white space around the keys changes nothing |
| `Sim.PaddedDeleteLine` | lib/game/engine/sim.ts:11 | `" dd "` does what `"dd"` does |
| `Sim.PlainKeys` | lib/game/engine/sim.ts:11-21 | keys that carry no padding and do not start with a digit are dispatched as they are, with count 1 |
| `Sim.MotionKeys` | lib/game/engine/sim.ts:22-25 | h, j, k, l are moveCursor by (0,-1), (1,0), (-1,0), (0,1), they answer their own name and they leave the register |
| `Sim.JumpKeys` | lib/game/engine/sim.ts:26-37 | 0, $, gg, G, w and b are lineStart, lineEnd, goTop, goBottom, wordForward and wordBackward |
| `Sim.EditKeys` | lib/game/engine/sim.ts:30-35 | x, dw, cw, p and a bare dd are deleteChar, deleteWord (for both dw and cw), pasteBelow with the register, and deleteLine of one line |
| `Sim.YankKeys` | lib/game/engine/sim.ts:33 | yy returns the buffer unchanged with command "yy" and sets the register to the cursor's line |
| `Sim.DispatchCountOnlyDd` | lib/game/engine/sim.ts:21-46 | no command except dd depends on the count |
| `Sim.CountIgnoredUnlessDd` | lib/game/engine/sim.ts:14-35 | a count before any lower-case command other than dd gives the same result as the command alone |
| `Sim.CountedDeleteLine` | lib/game/engine/sim.ts:35 | `<digits>dd` is deleteLine with the digits' value and answers "dd" |
| `Sim.CountExamples` | lib/game/engine/sim.ts:13-35 | "3dd" and "10dd" delete 3 and 10 lines; "3h" is "h" |
| `Sim.YankPasteComposite` | lib/game/engine/sim.ts:39-44 | "yyp", "yy p" and "3yyp" all yank the cursor's line and paste it below. They give the same buffer and register, with command "yy p" |
| `Sim.CompositeIsYankThenPaste` | lib/game/engine/sim.ts:39-44 | the composite is yy followed by p on the result, answered as "yy p" |
| `Sim.YankPasteCopiesLine` | lib/game/engine/sim.ts:40-42 | on a row inside the buffer, yyp duplicates that row just below it and puts the cursor at the start of the copy |
| `Sim.DispatchUnknown` | lib/game/engine/sim.ts:38-45 | a command without a case of its own leaves buffer and register and is echoed |
| `Sim.UnknownKeysAreNoOp` | lib/game/engine/sim.ts:38-48 | unrecognised input returns the buffer unchanged, keeps the register and answers the count-stripped command |
| `Sim.UnknownExamples` | lib/game/engine/sim.ts:14-48 | "zz" and "3zz" answer "zz"; "3G" and "2yy p" are not count forms and are echoed whole |
| `Sim.DispatchRegister` | lib/game/engine/sim.ts:33-42 | after a dispatch the register holds the cursor's line for yy, yy p and yyp, and its old contents for every other command |
| `Sim.RegisterOnlyWrittenByYank` | lib/game/engine/sim.ts:33-42 | only yy and the composite write the register, and they write the cursor's line |
| `Sim.TopThenBottom` | lib/game/engine/sim.ts:28-29 | gg puts the cursor at (-1, 0); G after it puts it at (line count, 0); the lines stay |
| `Sim.DispatchRowInBand` | lib/game/engine/sim.ts:21-46 | every command keeps a row in -1..line count inside that band |
| `Sim.RowStaysInBand` | lib/game/engine/sim.ts:9-49 | whatever the keys, a row in -1..line count stays in that band |
| `Sim.DispatchRowInBuffer` | lib/game/engine/sim.ts:21-46 | every command but gg and G keeps a row inside the buffer inside it, unless dd removed every line |
| `Sim.RowStaysInBuffer` | lib/game/engine/sim.ts:9-49 | from a row inside the buffer, any keys but gg and G leave the cursor inside the buffer, unless dd emptied it |
| `Scoring.PointsFor` | lib/game/engine/scoring.ts:1-5 | the result is one of -1, 0, 1. It is -1 exactly when the time ran out, 1 exactly for a correct answer without a hint in time, and 0 for a wrong answer or a hinted one in time |
| `Scoring.PointsOrder` | lib/game/engine/scoring.ts:1-5 | a correct answer never scores below a wrong one, a hint never raises the score, and a timeout scores lowest |
| `Questions.BankIdsDistinct` | lib/game/engine/questions.ts:8-32 | no two entries of `QuestionBank`, the nineteen questions of questions.ts:9-31 entry for entry, share an id |
| `Questions.BankAnswersNonEmpty` | lib/game/engine/questions.ts:8-32 | the bank has nineteen entries and each accepts at least one answer |
| `Questions.PickRandom` | lib/game/engine/questions.ts:34-37 | the pick is a prefix of the shuffled copy. For a count >= 0 it has min(count, bank size) entries; a negative count drops that many from the end |
| `Questions.DistinctIdsOfShuffle` | lib/game/engine/questions.ts:35 | reordering a sequence with distinct ids keeps them distinct |
| `Questions.PickFromShuffle` | lib/game/engine/questions.ts:35-36 | a pick from a reordering of a sequence has min(count, its size) entries, all taken from it, with no id twice |
| `Questions.PickAllOfShuffle` | lib/game/engine/questions.ts:35-36 | picking as many entries as there are from a reordering gives back every entry as often as it occurs |
| `Questions.PickSize` | lib/game/engine/questions.ts:34-37 | for a count >= 0 the pick has exactly min(count, 19) questions |
| `Questions.PickFromBank` | lib/game/engine/questions.ts:35-36 | every picked question is a bank entry |
| `Questions.PickDistinct` | lib/game/engine/questions.ts:35-36 | no question is picked twice |
| `Questions.PickWholeBank` | lib/game/engine/questions.ts:34-37 | picking the bank's size, as the game does, returns every question exactly once |
| `Questions.PickDefault` | lib/game/engine/questions.ts:34 | the default count `DefaultPickCount`, 10 as at questions.ts:34, picks ten questions |

## Left out

- User interface, timers, local storage, the API routes and Redis. These are
  I/O, and none of them is part of the engine. The game page decides whether
  an answer is correct by comparing the raw trimmed input with a question's
  expected strings, not `applyKeys`' canonical command. The model makes no
  claim about how answers are judged.
- `Math.random` and the sort it drives in `pickRandom`. The resulting order is
  the parameter `shuffled`, which may be any reordering of the bank. Nothing is
  claimed about how likely each order is.
- `QUESTION_BANK` is not reordered by `pickRandom`. In the model this holds by
  construction, because the bank is an immutable constant and the sort works on
  a copy whose order is the parameter.
- Default parameters: `deleteLine(buf, count = 1)` and `pickRandom(count = 10)`.
  The model always passes the count. The interpreter passes 1 when there is no
  count prefix, and `DefaultPickCount` is the 10.
- Numbers are integers. Fractional or `NaN` arguments never reach these
  functions from the engine. `parseInt` is modelled as the exact decimal value
  of the digits; the result does not change for huge values, because splice
  clamps the count to the lines available.
- Columns are natural numbers. No engine operation produces a negative column,
  so the negative-start behaviour of `slice` is not modelled.
- Strings are sequences of Unicode characters, not UTF-16 code units.
  Surrogate pairs are not modelled. `\w`, `\d` and `[a-z]` are the ASCII
  classes the source's regular expressions use without the `u` flag, and
  `trim` strips the ECMAScript white-space and line-terminator set.
- The register's optional `line` field is an `Option<string>`. The record
  copies (`{ ...buf }`, `lines.slice()`) are immutable values.
- `BufferOps.DeleteLineKeepsALine`: stated only for cursor rows from -1 to the
  line count, which are the rows the engine's own commands produce. Rows
  further out make `splice` count further from the end.
- `BufferOps.DeleteLine`: this contract covers one-line buffers, and longer
  buffers with the row inside them. The transient rows -1 and line count are
  covered by `DeleteLineAboveTop` and `DeleteLineBelowBottom`.
