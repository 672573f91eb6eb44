# Fox and Hounds — a Dafny model of the game's core

This project models a console game of Fox and Hounds. The board is square, with a dimension from 4 to 26. Columns are letters starting at `A` and rows are numbers starting at `1`. The game has `dim / 2` hounds and one fox. A board is an array of coordinate strings: the hounds' squares first, the fox's square last (slot `dim / 2`). The fox moves first, and the players then alternate.

The model covers four Java classes:

- **`FoxHoundUtils`** (`fox_hound_utils.dfy`):
  - the initial layout (`initialisePositions`);
  - the two win tests (`isFoxWin`, `isHoundWin`);
  - the move validator (`isValidMove`).
- **`FoxHoundIO`** (`fox_hound_io.dfy`):
  - the one-line save format, written by `saveGame` and read back by `loadGame`;
  - the file is modelled as the sequence of its lines.
- **`FoxHoundUI`** (`fox_hound_ui.dfy`):
  - the coordinate check of `positionQuery`, for one line of input;
  - the lines `displayBoard` prints: the symbol on each square, the column letters, and the row labels.
- **`FoxHoundGame`** (`fox_hound_game.dfy`), on the class `GameSession`:
  - `swapPlayers`;
  - the choice of dimension in `main`;
  - one round of `gameLoop`: the win test, then moving, saving or loading.

Two modules support them:

- `Wrappers`: the `Result` and `Option` types. A Java `IllegalArgumentException` becomes `Err(IllegalArgument)`.
- `Text`: decimal numerals, and Java's `String.split(" ")` and `String.join(" ", …)`.
  - `split(" ")` of a string with no space is the string itself.
  - Otherwise the string is cut at every space and trailing empty fields are dropped.

Java `char` arithmetic is written out on the characters' code points. The 16-bit wrap of `(char) (64 + dimension)` is modelled where an invalid dimension reaches it, in `isHoundWin`.

### Departures from the intended rules, modelled as written

The model keeps the code's behaviour. Lemmas state each departure:

- **Hounds are not held to a row step.** The hound branch checks the column: at most `(char)(64 + dim)`, one column away. It then tests whether the move goes one row forward and stays on the board. That test only decides whether the destination is scanned for pieces; the move is accepted either way. So a hound may retreat, even onto another hound, or leap any number of rows, even onto the fox. See `HoundMoveOnSquares`, `HoundRetreatAccepted`, `HoundLeapAccepted` and `HoundRetreatCollides`.
- **Wide boards skip the fox in the hound scan.** From dimension 10 on, the hound branch scans only `players[0 .. dim/2 - 1]`. A hound may therefore land on the fox. See `WideBoardHoundOntoFox` and `WideBoardHoundCapturesSquare`.
- **Hound moves read a third character from dimension 10 on.** Once the origin matches a hound and the column test passes, that branch reads `charAt(2)` of the destination. It reads `charAt(2)` of the origin only when the destination's two-digit row is at most `dim`. Those strings must be long enough; this is the validator's precondition (`HoundRowReadable`), and it binds `GameSession.Move` only while the validator is still called.
- **The fox may be moved onto a string that names no square.** The fox branch reads only the characters it needs for the row. Below dimension 10 that is char 1, so trailing characters are ignored: `E8` to `D7x` is accepted on the opening board. From 10 on, any character counts as a digit and only the upper row bound is checked: `G12` to `F;` (row 11) is accepted, and so is `C1` to `B0`. `positionQuery` lets the first two through as well. See `FoxMoveOffSquares` and `PositionQueryAcceptsNonSquares`.
- **The move check runs only until the game's first accepted move.** `gameLoop`'s `validity` flag is never reset. After the first accepted move, every later move is applied unchecked. See `GameSession.Move`.
- **Loading assumes an 8×8 board with five pieces.**
  - `loadGame` insists on five slots.
  - It checks each token against an 8×8 board, whatever the game's dimension.
  - It reads only the first two characters of each token. See `LoadIgnoresTail`.
- **Digits are read one at a time below dimension 10.** There `positionQuery` reads only the first digit of each row, so `A12 B3` passes on an 8×8 board. See `PositionQueryReadsOneDigit`.
- **Board symbols have a fixed priority.** `displayBoard` prints `H` when the first hound is on the square. Otherwise it prints `F` for the fox, before any later hound on the same square.

## Model

| member | source | states |
|---|---|---|
| `Text.DecimalRoundTrip` | src/FoxHoundUtils.java:106 | Reading back the decimal of `n` (as `Integer.toString` writes it) gives `n`. |
| `Text.SplitSpaces` | src/FoxHoundIO.java:46 | `split(" ")` yields pieces that contain no space. When the string has a space, the last piece is not empty. Without a space, the string itself is the only piece. |
| `Text.JoinSpaces` | src/FoxHoundIO.java:101 | `join(" ", …)` begins with the first part, followed by a space when there are two or more parts. No character other than the space appears unless some part holds it. |
| `Text.SplitJoin` | src/FoxHoundIO.java:101-102 | Joining at least two non-empty, space-free tokens with single spaces, then splitting at spaces, gives the tokens back. |
| `FoxHoundUtils.InitialisePositions` | src/FoxHoundUtils.java:43-73 | `Err` exactly when the dimension lies outside [4, 26]. Otherwise the result is the initial layout: hounds on row 1, columns B, D, F, …; the fox on the last row in the column from the parity table. |
| `FoxHoundUtils.DefaultLayout` | src/FoxHoundUtils.java:49-51 | At dimension 8 the layout is `B1 D1 F1 H1 E8`. |
| `FoxHoundUtils.InitialLayoutShape` | src/FoxHoundUtils.java:48-70 | The layout has `dim/2 + 1` slots. Hound `i` stands on column `1 + 2i` (inside the board), row 1. The fox stands on row `dim`. No two pieces share a square. |
| `FoxHoundUtils.FoxColumnPlacement` | src/FoxHoundUtils.java:60-68 | The fox's column is a board column within one column of the middle. It has the hounds' colour: column index plus row is even. |
| `FoxHoundUtils.IsFoxWin` | src/FoxHoundUtils.java:81-86 | The fox has won exactly when its position is one column character followed by the numeral `1`. |
| `FoxHoundUtils.FoxWinIffRowOne` | src/FoxHoundUtils.java:81-86 | On a square's name, `isFoxWin` holds exactly when the row is 1, whatever the column. |
| `FoxHoundUtils.ParsedRowOfSquare` | src/FoxHoundUtils.java:140-185 | The validator's row reading (one digit below 10; one or two digits, by length, from 10 on) gives back the row of any board square. |
| `FoxHoundUtils.IsOccupied` | src/FoxHoundUtils.java:142-146 | The scan sets its flag exactly when `dest` is among the first `n` slots. |
| `FoxHoundUtils.IsValidMove` | src/FoxHoundUtils.java:128-221 | `Err` exactly when the dimension is invalid. Otherwise the result is the fox rule or the hound rule as written. The fox rule needs: the fox's square as origin; a destination column on the board, one column away; the row read from char 1 (chars 1–2 by length from 10 on), one row away, at most `dim`, and positive only below 10; and the destination not among the pieces. The hound scan uses its own index (see Findings). |
| `FoxHoundUtils.IsHoundWin` | src/FoxHoundUtils.java:97-114 | A negative dimension gives `Err`. Other invalid dimensions give `Err` when the inner loop runs at all, because its first `isValidMove` call throws. When `(char)(64 + dim)` wraps below `A`, nothing is tried and the result is `true`. For a valid board the result is: no square is a legal fox move. |
| `FoxHoundUtils.FoxMoveOnSquares` | src/FoxHoundUtils.java:137-197 | On board squares the fox rule as written is the intended rule: a diagonal step, onto a free square, from the fox's own square. |
| `FoxHoundUtils.FoxMoveOffSquares` | src/FoxHoundUtils.java:137-197 | The fox rule accepts destinations that name no square: `E8` to `D7x` on 8×8; `G12` to `F;` and `C1` to `B0` on 12×12. |
| `FoxHoundUtils.HoundWinIffSurrounded` | src/FoxHoundUtils.java:102-113 | The hounds win exactly when no board square is a diagonal neighbour of the fox that is free. |
| `FoxHoundUtils.HoundMoveOnSquares` | src/FoxHoundUtils.java:198-218 | Below dimension 10, on square names, a hound move is accepted exactly when the origin is a hound's square and `dest` is in an adjacent board column. Only a one-row forward step onto the board must also land on a free square. |
| `FoxHoundUtils.HoundRetreatAccepted` | src/FoxHoundUtils.java:201-216 | A hound on B3 may move back to A2, which the intended rule forbids. |
| `FoxHoundUtils.HoundLeapAccepted` | src/FoxHoundUtils.java:201-216 | On the opening board the hound on B1 may leap to C5, and the hound on D1 onto the fox on E8. |
| `FoxHoundUtils.WideBoardHoundOntoFox` | src/FoxHoundUtils.java:209-216 | On a 12×12 board a hound on C10 may move onto the fox on D11. |
| `FoxHoundUtils.OpeningMoves` | src/FoxHoundUtils.java:137-216 | On the opening board the fox may move E8 to D7. The hound on B1 may move to A2 or C2, but not to B2. |
| `FoxHoundUtils.SameColumnRejected` | src/FoxHoundUtils.java:139-201 | Neither piece may move within its own column. |
| `FoxHoundUtils.HoundLoopStepAsWritten` | src/FoxHoundUtils.java:199-214 | One pass of the hound branch's outer loop, with the inner scan reusing the outer index. The index after a pass is at least 1. |
| `FoxHoundUtils.HoundLoopRunAsWritten` | src/FoxHoundUtils.java:199-216 | The as-written outer loop, run for up to `n` passes. It sets `validity` only once some hound slot holding the origin has passed the column test. |
| `FoxHoundUtils.HoundLoopAgreesWhenItEnds` | src/FoxHoundUtils.java:199-216 | Whenever the as-written loop exits, the `validity` it returns is exactly the hound rule the corrected validator decides. |
| `FoxHoundUtils.HoundLoopNeverEnds` | src/FoxHoundUtils.java:199-214 | With hounds C2 D1 F1 H1 and the fox on E8, the hound move D1→C2 keeps the as-written loop's index below 4 for any number of passes: it never ends. The corrected rule refuses the move. |
| `FoxHoundIO.LoadResult` | src/FoxHoundIO.java:37-67 | The result is `#`, `F` or `H`. It is other than `#` exactly when the file has one line, made of 1 turn token (`F` or `H`) followed by 5 tokens inside an 8×8 board. It is then the turn token. |
| `FoxHoundIO.LoadedPositions` | src/FoxHoundIO.java:53-56 | The five loaded tokens are exactly tokens 1–5 of the line, and each passes the 8×8 test. |
| `FoxHoundIO.CheckRecord` | src/FoxHoundIO.java:47-52 | The early-return token checks accept exactly the records `ValidRecord` describes. |
| `FoxHoundIO.LoadGame` | src/FoxHoundIO.java:25-68 | `Err` when the array does not have 5 slots. Otherwise the result is `LoadResult`. On `#` or `Err` the array is unchanged; otherwise it holds the loaded tokens. |
| `FoxHoundIO.SaveGame` | src/FoxHoundIO.java:80-103 | `Err` exactly when there are not 5 positions or the turn is neither `F` nor `H`. Otherwise the text starts with the turn and a space. |
| `FoxHoundIO.SaveThenLoad` | src/FoxHoundIO.java:46-57 | `saveGame` writes a single line for 5 tokens on an 8×8 board that are free of spaces and line breaks. Loading that line returns the saved turn and the saved positions. |
| `FoxHoundIO.SaveIsOneLine` | src/FoxHoundIO.java:101-103 | When no position holds a character at which `Scanner` ends a line (`\n`, `\r`, U+0085, U+2028, U+2029), neither does the saved text, so a saved game is a one-line file. |
| `FoxHoundIO.LoadNeedsOneLine` | src/FoxHoundIO.java:39-44 | A file of zero lines or of more than one line loads as `#`. |
| `FoxHoundIO.LoadNeedsTurnAndArity` | src/FoxHoundIO.java:46-48 | A record whose first token is not `F` or `H`, or which does not have exactly six tokens, loads as `#`. |
| `FoxHoundIO.LoadNeedsBoardTokens` | src/FoxHoundIO.java:49-52 | A record with a token off the 8×8 board loads as `#`. |
| `FoxHoundIO.LoadOfJoin` | src/FoxHoundIO.java:44-57 | A one-line file of six space-free tokens loads exactly as `ValidRecord` of those tokens says. |
| `FoxHoundIO.LoadIgnoresTail` | src/FoxHoundIO.java:50 | Tokens such as `A1x` and `C3yz` pass the board test: only two characters are read. |
| `FoxHoundIO.LoadRejectsShortRecord` | src/FoxHoundIO.java:47 | A record with only four positions loads as `#`. |
| `FoxHoundUI.PositionQuery` | src/FoxHoundUI.java:180-230 | `Err` exactly when the dimension is invalid. Otherwise `Some` exactly when the line splits into two tokens that each pass the column and row bounds. The pair returned is those two tokens unchanged. |
| `FoxHoundUI.PositionQueryOnSquares` | src/FoxHoundUI.java:194-220 | Any two board squares, written as a line, are accepted and returned. |
| `FoxHoundUI.PositionQueryReadsOneDigit` | src/FoxHoundUI.java:198-200 | On an 8×8 board `A12 B3` is accepted. |
| `FoxHoundUI.PositionQueryAcceptsNonSquares` | src/FoxHoundUI.java:194-220 | `E8 D7x` is accepted on an 8×8 board, and `G12 F;` on a 12×12 board; each is returned as the pair of its two words. |
| `FoxHoundUI.SymbolAt` | src/FoxHoundUI.java:66-81 | The symbol is `H`, `F` or `.`. `H` appears only where a hound stands, and `F` only where the fox stands. |
| `FoxHoundUI.SymbolAtMeaning` | src/FoxHoundUI.java:66-81 | A square shows `.` exactly when no piece stands on it. It shows `F` exactly when the fox stands on it and the first hound does not, even when a later hound shares the square. |
| `FoxHoundUI.SquareSymbol` | src/FoxHoundUI.java:102-115 | The inner scan prints the symbol `SymbolAt` gives. |
| `FoxHoundUI.RowLabel` | src/FoxHoundUI.java:96-99 | The label is digits whose value is the row. It is two wide from dimension 10 on (zero-padded), and the plain decimal below 10. |
| `FoxHoundUI.ColumnsAligned` | src/FoxHoundUI.java:59-125 | The header letter of column `k` stands above column `k` of every row: at offset `2 + k` below dimension 10 and `3 + k` from 10 on. The header holds the column letter of the square whose symbol the row line shows there. |
| `FoxHoundUI.WideRowsAligned` | src/FoxHoundUI.java:95-121 | From dimension 10 on, every row line has the same length, `dim + 6`. |
| `FoxHoundUI.RenderRow` | src/FoxHoundUI.java:95-121 | The loop builds exactly the row line: label, space, `dim` symbols, space, label. |
| `FoxHoundUI.DisplayBoard` | src/FoxHoundUI.java:51-128 | `Err` exactly when the dimension is invalid. Otherwise the lines printed are the header, one line per row and the footer. |
| `FoxHoundGame.SwapPlayers` | src/FoxHoundGame.java:33-39 | The next turn is `F` or `H`, and it is `H` exactly when the current one is `F`. |
| `FoxHoundGame.SwapInvolution` | src/FoxHoundGame.java:33-39 | On `F` and `H`, swapping twice gives the turn back, and one swap changes it. |
| `FoxHoundGame.ChosenDimension` | src/FoxHoundGame.java:139-157 | The dimension is always valid. It is the entered one exactly when the answer was `y`/`Y` and the number lies in [4, 26], and 8 otherwise. |
| `FoxHoundGame.ApplyMove` | src/FoxHoundGame.java:85-93 | Applying a move changes at most one slot, and the changed slot holds the destination. A fox turn puts the destination in slot `dim/2`; a hound turn never touches that slot. |
| `FoxHoundGame.FoxApplyOverwritesFox` | src/FoxHoundGame.java:85-86 | A fox move writes its destination into slot `dim/2` and changes no hound. |
| `FoxHoundGame.HoundApplyOverwritesFirstMatch` | src/FoxHoundGame.java:87-93 | A hound move writes into the first hound slot holding the origin, and nothing changes when there is none. |
| `FoxHoundGame.FoxMoveKeepsDistinct` | src/FoxHoundGame.java:85-86 | An accepted fox move keeps all pieces on distinct squares. |
| `FoxHoundGame.HoundForwardMoveKeepsDistinct` | src/FoxHoundGame.java:87-93 | Below dimension 10, an accepted forward hound move keeps all pieces on distinct squares. |
| `FoxHoundGame.HoundRetreatCollides` | src/FoxHoundGame.java:87-93 | An accepted hound retreat can put two hounds on one square. |
| `FoxHoundGame.WideBoardHoundCapturesSquare` | src/FoxHoundGame.java:87-93 | On a 12×12 board an accepted hound move can put a hound on the fox's square. |
| `FoxHoundGame.FirstValidEntry` | src/FoxHoundGame.java:74-84 | The index of the first entry the validator accepts, with every earlier entry refused, or the number of entries when there is none. |
| `FoxHoundGame.WinnerOf` | src/FoxHoundGame.java:60-66 | The hounds win exactly when the fox cannot move. The fox wins exactly when it stands on row 1 and the hounds have not won. |
| `FoxHoundGame.GameSession.constructor` | src/FoxHoundGame.java:48-52 | A session starts from the initial layout, with the fox to move and `validity` false. |
| `FoxHoundGame.GameSession.CheckWin` | src/FoxHoundGame.java:60-66 | The win test returns `WinnerOf` the current board. |
| `FoxHoundGame.GameSession.Move` | src/FoxHoundGame.java:71-95 | While `validity` is false, the move applied is the first accepted entry. Once it is true, the first entry is applied unchecked, whatever its form. An applied move updates the array as `ApplyMove` says and passes the turn. With no accepted entry, nothing changes. |
| `FoxHoundGame.GameSession.Save` | src/FoxHoundGame.java:96-101 | Saving writes `SaveGame` of the current board and turn. |
| `FoxHoundGame.GameSession.Load` | src/FoxHoundGame.java:102-111 | A `#` or error result keeps the turn and the board. Any other result becomes the turn, and the board becomes the loaded positions. `validity` is untouched. |

## Left out

- File system: `loadGame` and `saveGame` open, create and write files through `Path`, `File`, `Scanner` and `FileWriter`. The model passes the file's lines in and returns the saved text. Two file outcomes are therefore not modelled: a missing file (which loads as `#`) and an `IOException` (which makes saving return `false`). How `Scanner` cuts bytes into lines is not part of this model either.
- Console: `mainMenuQuery`, `fileQuery`, the prompts and error messages, `System.exit` and the `Scanner` on standard input are not modelled.
  - `main`'s dialogue becomes the inputs of `ChosenDimension`.
  - `positionQuery`'s repeated prompting becomes a sequence of entries given to `GameSession.Move`.
- The menu loop of `gameLoop`: its choice dispatch, the invalid-choice message and the exit choice are not modelled. Each menu action is one method of `GameSession`.
- `null` arguments and the `NullPointerException`s thrown for them are not modelled: Dafny values are never null. The `catch (NullPointerException)` in `gameLoop`'s validation loop repeats the same call, so it cannot change the result.
- The messages of `IllegalArgumentException`: a negative dimension and an out-of-range dimension both become `Err(IllegalArgument)`.
- `String.split` is modelled for the single-space pattern the code uses. Java's general regular-expression splitting is not.
- `charAt` and array indexes out of range (`StringIndexOutOfBoundsException`) are not error results: the members that read them require the strings to be long enough.
- `FoxHoundUI.SquareSymbol`: requires at least two positions. With one, the Java loop does not run and prints whatever a previous call left in the shared `check` field.
- `FoxHoundGame.GameSession.Move`: when every entry is refused, the Java program would prompt again. The model returns `applied == false` with nothing changed.
- `FoxHoundGame.GameSession.Load`: when the array does not have 5 slots, `loadGame`'s exception would end the program. The model returns `Err` with the state unchanged.
- `FoxHoundUtils.IsValidMove`: models the hound branch with a separate index for the inner scan. It returns the value the as-written code returns whenever that code halts (`HoundLoopAgreesWhenItEnds`); see Findings for the case where it does not.
- `FoxHoundUtils.IsHoundWin`: requires a dimension below `Integer.MAX_VALUE`. At that value the row counter `++i` wraps and the Java loop never ends, which the model does not represent.
- `FoxHoundUtils.IsHoundWin`: for an invalid dimension whose inner loop runs, requires more than `dimension / 2` slots. With fewer, Java throws `ArrayIndexOutOfBoundsException` reading the fox's slot before `isValidMove` is called. That follows the model's rule that an out-of-range index is a precondition, not an error result.

## Findings

| source | as written | input that shows it | evidently intended | confidence | as-written member | corrected member |
|---|---|---|---|---|---|---|
| src/FoxHoundUtils.java:199-214 | The hound branch's inner scan `for (i = 0; …)` reuses the outer loop's index `i`. Say the scan finds the destination at slot `j`, before the origin's slot `k`. The outer loop then resumes at `j + 1`, which is at most `k`. It reaches slot `k` again and repeats the scan, so the method never returns. Whenever the loop does exit, it agrees with the corrected rule (`HoundLoopAgreesWhenItEnds`). | `isValidMove(8, {"C2","D1","F1","H1","E8"}, 'H', "D1", "C2")`: the index goes 1, 0, 1, 0, … for ever. | The scan uses its own index, and the move is refused because C2 is occupied. | not executed | `FoxHoundUtils.HoundLoopNeverEnds` | `FoxHoundUtils.IsValidMove` |
