# Tic-tac-toe game rules and history, in Dafny

This project models the logic of a React tic-tac-toe game: the rules that decide
a winner and label the cells, and the `Game` component's history handling. The
component keeps a list of board snapshots, a pointer to the shown step, whose
turn it is and the sort order of the move list. A click on a cell either
appends a move (discarding any snapshots after the shown step) or is declined.
A click on the move list rewinds the pointer, and a toggle flips the list order.
The status line and the labels of the move list are derived from that state.

Modules, in dependency order:

- `Options`: `Option`, for the source's `null`/`undefined` results.
- `Rules`: marks and cells, the eight winning lines, `Winner` with its loop
  `CalculateWinner`, and the column/row tables with `GetColumnRow`,
  `CalculateColumn` and `CalculateRow`. The lookups are proved equal to the
  closed forms `ColumnOf` (A/B/C by `i % 3`) and `RowOf` (`3 - i / 3`; row 1
  is the bottom row).
- `History`: the component state as a value (`GameState`), the invariant
  `ValidState`, the transitions `Click`, `Jump` and `ToggleSort`, and the
  lemmas about them.
- `Render`: the status text, the move labels (with a parser that reads the
  step number back) and the shown order of the list, plus a whole game played
  out.
- `GameComponent`: the class `Game` with the fields `history`, `stepNumber`,
  `xIsNext` and `ascending`. `setState` is modelled as direct assignment to
  these fields. Each handler is proved to perform the matching `History`
  transition (`HandleClick` performs `Click`, `JumpTo` performs `Jump`,
  `ToggleSort` performs `ToggleSort`) and to keep `Valid()`.

Details of the code worth knowing:
- The status reads `Winner: X` or `Next Player: O`.
- The annotation of a move-list entry is `' (' + column + row + ')'`, with a
  leading space.
- `handleClick` reads the stored `xIsNext` flag. `ValidState` states that the
  flag equals `stepNumber % 2 == 0`, and `InitialValid`, `ClickPreservesValid`
  and `JumpPreservesValid` prove that this is kept.

## Model

| member | source | states |
|---|---|---|
| `Rules.EmptyBoard` | src/index.js:80 | the initial board has nine cells, all empty |
| `Rules.Winner` | src/index.js:202-226 | definition of calculateWinner's result: the first winning line in the listed order, or nothing; characterised by `WinnerNoneIff`, `WinnerIsFirstLine` and `WinnerOccupiesLine`, and computed by `CalculateWinner` |
| `Rules.WinnerNoneIff` | src/index.js:202-226 | calculateWinner returns null exactly when none of the eight lines has three equal non-empty cells |
| `Rules.WinnerIsFirstLine` | src/index.js:203-222 | if line m wins and no earlier line in the listed order does, the result is line m's `[a, b, c]` with the mark in its cells |
| `Rules.WinnerOccupiesLine` | src/index.js:214-222 | a reported `row` is one of the eight lines, and all three of its cells hold the reported `letter` |
| `Rules.CalculateWinner` | src/index.js:202-226 | the early-return loop over the lines computes exactly `Winner` |
| `Rules.GetColumnRow` | src/index.js:194-200 | returns the name of the first group containing `i`; returns nothing exactly when no group contains `i` |
| `Rules.CalculateColumn` | src/index.js:174-182 | the column table gives A, B, C by `i % 3` for cells 0..8 and nothing for any other index |
| `Rules.CalculateRow` | src/index.js:184-192 | the row table gives `3 - i / 3` for cells 0..8 (row 1 is the bottom row) and nothing for any other index |
| `History.Click` | src/index.js:89-110 | the state is unchanged exactly when the board has a winner or cell `i` is taken; otherwise the history is `history[0..stepNumber]` plus one snapshot whose board equals the current one except cell `i`, which now holds the mover's mark; that snapshot is annotated with `ColumnOf(i)` and `RowOf(i)`; the pointer is at the new end, the turn is passed and `ascending` is kept |
| `History.Initial` | src/index.js:78-86 | definition of the constructor's state; shown valid by `InitialValid` and built by `Game.constructor` |
| `History.Jump` | src/index.js:112-117 | definition of jumpTo's new state; shown to keep the invariant by `JumpPreservesValid` and performed by `Game.JumpTo` |
| `History.ToggleSort` | src/index.js:119-123 | definition of toggleSort's new state; shown to keep the invariant and undo itself by `ToggleSortPreservesValid`, and performed by `Game.ToggleSort` |
| `History.InitialValid` | src/index.js:78-86 | the constructor's state satisfies the invariant |
| `History.PrefixValid` | src/index.js:90 | cutting a valid history after any snapshot leaves a valid history |
| `History.ClickPreservesValid` | src/index.js:89-110 | handleClick keeps `stepNumber` inside `history`, `xIsNext == (stepNumber % 2 == 0)` and the one-move-per-snapshot history invariant |
| `History.JumpPreservesValid` | src/index.js:112-117 | jumpTo to a listed step keeps the invariant and leaves history and sort order alone |
| `History.ToggleSortPreservesValid` | src/index.js:119-123 | toggleSort keeps the invariant, leaves history and step alone, and undoes itself |
| `History.JumpThenClickTruncates` | src/index.js:90-108 | after jumpTo(step), an accepted move keeps exactly the first `step + 1` snapshots and appends one |
| `History.SnapshotChangesOneEmptyCell` | src/index.js:92-105 | every snapshot differs from its predecessor in exactly one cell, which was empty and now holds the mover's mark |
| `History.WinnerOnlyAtEnd` | src/index.js:94-96 | no snapshot follows a board with a winner, so only the last snapshot can show one |
| `History.MarkCounts` | src/index.js:98-117 | the board at step n holds (n + 1) / 2 crosses and n / 2 noughts: X moves first and the players alternate |
| `History.HistoryAtMostTen` | src/index.js:89-110 | a history holds at most ten snapshots |
| `Render.ParseNatToString` | src/index.js:138 | the decimal numeral of a step number reads back as that number |
| `Render.AnnotationText` | src/index.js:138-139 | definition of the `' (' + column + row + ')'` suffix, present only when both labels are set and truthy; characterised by `HistoryLabels` |
| `Render.MoveLabel` | src/index.js:138-139 | definition of an entry's text; characterised by `MoveLabelRoundTrip`, `MoveLabelsDistinct` and `HistoryLabels` |
| `Render.MoveEntries` | src/index.js:137 | definition of `history.map(...)` in step order; characterised entry by entry by `OrderedMoves` |
| `Render.MoveLabelRoundTrip` | src/index.js:137-139 | the step number read back out of entry n's label is n, with or without the annotation |
| `Render.MoveLabelsDistinct` | src/index.js:137-139 | two entries of the move list never carry the same text |
| `Render.HistoryLabels` | src/index.js:137-139 | entry 0 is exactly `Go to game start`; entry n > 0 is `Go to move #n (Cr)`, with the column and row of the cell that move filled |
| `Render.Reverse` | src/index.js:164 | `moves.reverse()` puts the k-th element from the end at position k |
| `Render.OrderedMoves` | src/index.js:137-148 | one entry per snapshot; position k shows step k when `ascending === true` and the k-th step from the end otherwise |
| `Render.ToggleReversesList` | src/index.js:119-123 | after toggleSort the list shows the same entries in reverse |
| `Render.Status` | src/index.js:151 | definition of the status line; characterised by `StatusOfState` and `WinnerStatusFreezesBoard` |
| `Render.StatusOfState` | src/index.js:150-151 | the status is `Winner: L` for the winner's mark; otherwise it is `Next Player: P` for the step parity's player, who is the player whose mark the next accepted click places |
| `Render.WinnerStatusFreezesBoard` | src/index.js:94-96 | the status starts `Winner: ` exactly when the board has a winner, and then every click is declined |
| `Render.Play` | src/index.js:89-110 | a sequence of clicks applied one after another keeps the step pointer in range |
| `Render.PlayPreservesValid` | src/index.js:89-117 | any sequence of clicks from a reachable state keeps the invariant |
| `Render.TopRowGame` | src/index.js:89-151 | moves 0, 4, 1, 3, 2 from the start give X the top row `[0, 1, 2]`; the status reads `Winner: X` and a further click is declined |
| `Render.DescendingListOrder` | src/index.js:164 | with the initial descending order, a three-move game lists steps 3, 2, 1, 0 |
| `GameComponent.Game.constructor` | src/index.js:75-87 | one empty snapshot, step 0, X to move, list descending |
| `GameComponent.Game.HandleClick` | src/index.js:89-110 | copies the board into an array and writes the cell in place; the new state is `Click` of the old one, and a declined click changes nothing |
| `GameComponent.Game.JumpTo` | src/index.js:112-117 | `stepNumber := step`, `xIsNext := step % 2 == 0`, history and sort order unchanged |
| `GameComponent.Game.ToggleSort` | src/index.js:119-123 | flips `ascending` only |
| `GameComponent.Game.StatusText` | src/index.js:150-151 | starts `Winner: ` exactly when the shown board has a winner, and is then `Winner: ` followed by the winner's letter; otherwise names X on even steps and O on odd ones |
| `GameComponent.Game.MoveList` | src/index.js:137-164 | one entry per snapshot; `Go to game start` comes first when ascending and last otherwise; every entry's text names the step it jumps to |

## Left out

- The presentation components `Square`, `Label` and `Board` (src/index.js:5-72) and the JSX markup of `render`, including the winning-cell highlight and the bold current step. They are DOM rendering.
- `ReactDOM.render` and the CSS import (src/index.js:1-3, 230-233). They are browser plumbing.
- React's asynchronous, merging `setState`. Each handler is modelled as one synchronous update of its fields.
- The `winner` and `winningSquares` state fields (src/index.js:82-83). They are set by the constructor and never read or written again.
- Draw detection. The code has none, so a full board with no line still reads `Next Player: ...`.
- `GameComponent.Game.HandleClick` and `History.Click` require `0 <= i < 9`. The board only ever passes those cells. In JavaScript an index past the end would extend the copied array, with holes when it is 10 or more; a negative or non-integer index would set a property that is not an array element; and `calculateColumn`/`calculateRow` would return `undefined` for either.
- `GameComponent.Game.JumpTo` requires `step` to be below the number of snapshots. The move list only offers those steps. An out-of-range step would make the next render read a missing snapshot.
- `ascending` starts out `undefined` in the source and is modelled as `false`. The code negates it (src/index.js:121), tests it with `=== true` (src/index.js:164) and copies it unchanged into the new state (src/index.js:107); under each of these, `undefined` behaves as `false`.
- Number-to-string conversion covers only the non-negative integers the labels use (step numbers and the row labels 1 to 3).
