# Tic-tac-toe hooks, modelled in Dafny

This project models the game logic of the tic-tac-toe board of a Vue
application. There are two composition hooks over a 3x3 board of nine `div`
cells:

- `useTikTakToe` (human against computer). It keeps the human symbol
  (`playerClass`), the computer symbol (`aiClass`), the side to move
  (`currentPlayer`), a game-over flag with its message (`isGameOver`,
  `finishLayoutValue`) and a module-level `originBoard`.
- `useCellLogic` (two humans). Its `playerClass` ref is the mark of the side
  to move.

A cell is modelled as `Board.Cell = Empty | X | O`. The code only asks a
cell's class list whether it holds `'xClass'` or `'oClass'`, and it adds a
mark only to a cell that holds neither, so no cell can ever hold both marks.
The class-name refs hold `''`, `'xClass'` or `'oClass'`, and they use the
same type, with `Empty` standing for `''`. `Board.Contains` models
`classList.contains`, and it is false for the empty name.

Files:

- `board.dfy` (module `Board`): the winning-triple table `WinCombo`, which is
  1-based as in the source. It also holds the win check `Wins`, a geometric
  reference definition `ThreeInARow` (rows, columns, diagonals), the list of
  empty cell ids `EmptyIds` and the count of marked cells `CountMarked`.
- `tiktaktoe.dfy` (module `TikTakToe`): the hook's abstract `State` with one
  pure transition function per operation. The class `Hook` holds the refs as
  fields and the cells as an `array<Cell>` of length 9. The class
  `ModuleState` holds the module-level `originBoard`, which every hook
  instance shares. Each method that has a transition function is proved to
  change the state exactly as that function says. `HandleFirstPlayer`,
  `StartGame` and `RemoveClasses` have none: their contracts state the new
  state directly.
- `cell_logic.dfy` (module `CellLogic`): the same layout for `useCellLogic`.

How the code behaves, including what it leaves unfinished (the model follows
the code):

- There is no search engine for the computer's move. The `minimax` in
  `useTikTakToe.ts` is commented out and incomplete. Nothing ever plays for
  the computer, and there is no tie detection.
- Only `startGame` gives `currentPlayer` a non-empty value (`resetPlayers`
  sets it to `''`, and `switchTurn` runs only after the guard of
  `handleClick` has checked it is set). `startGame` is not returned by the
  hook. So through the returned interface every click is rejected with
  "please pick x or o". `TikTakToe.ReturnedInterfaceNeverPlays` proves this.
- `handleClick` of `useTikTakToe` never consults `isGameOver`.
- `resetGame` does not clear `finishLayoutValue` or `originBoard`.
- In `useCellLogic` a win is only logged and play goes on. So a board on
  which both marks hold a triple is reachable (`CellLogic.BothMarksCanWin`).

## Model

| member | source | states |
|---|---|---|
| `Board.WinCombo` | src/hooks/titaktoe/useTikTakToe.ts:3-12 | the eight winning triples, 1-based as in the table (the same table is at useCellLogic.ts:3-12) |
| `Board.Contains` | src/hooks/titaktoe/useTikTakToe.ts:89-93 | `classList.contains(name)`: true only for a marked cell holding that very name, so never for `''` |
| `Board.ComboMarked` | src/hooks/titaktoe/useTikTakToe.ts:89-93 | `combo.every(...)`: every 1-based entry of the triple names a cell, and that cell holds p; a non-empty triple can only be marked by a real mark |
| `Board.Wins` | src/hooks/titaktoe/useTikTakToe.ts:86-96 | `WIN_COMBO.some(...)`, the win check of both hooks (also useCellLogic.ts:25-35): `''` never wins |
| `Board.EmptyIds` | src/hooks/titaktoe/useTikTakToe.ts:48-61 | the ids emptyCells returns: no more ids than cells, each one a cell index |
| `Board.WinsIffThreeInARow` | src/hooks/titaktoe/useTikTakToe.ts:3-12 | the table-driven win check (every cell `index - 1` of some triple holds p) holds exactly when p fills a row, a column or a diagonal |
| `Board.ComboIsLine` | src/hooks/titaktoe/useTikTakToe.ts:3-12 | each fully marked triple of the table is a row, a column or a diagonal |
| `Board.LineIsCombo` | src/hooks/titaktoe/useTikTakToe.ts:3-12 | each fully marked row, column and diagonal is a triple of the table |
| `Board.ComboAwayFromMove` | src/hooks/titaktoe/useTikTakToe.ts:86-96 | marking a cell outside a triple does not make that triple fully marked |
| `Board.WinThroughMove` | src/hooks/titaktoe/useTikTakToe.ts:86-96 | suppose p has no triple yet. Marking an empty cell i with p makes p win exactly when some triple containing cell i + 1 becomes fully p |
| `Board.EmptyIdsExact` | src/hooks/titaktoe/useTikTakToe.ts:48-61 | an id is in the empty-cell list exactly when it is the index of a cell holding neither mark |
| `Board.EmptyIdsIncreasing` | src/hooks/titaktoe/useTikTakToe.ts:48-61 | the empty-cell ids come in child order, strictly increasing, so none repeats |
| `Board.EmptyIdsCount` | src/hooks/titaktoe/useTikTakToe.ts:48-61 | the number of listed empty cells plus the number of marked cells is the number of cells |
| `Board.MarkIncrementsCount` | src/hooks/titaktoe/useCellLogic.ts:17-24 | marking an empty cell raises the count of marked cells by exactly one |
| `TikTakToe.Initial` | src/hooks/titaktoe/useTikTakToe.ts:15-21 | the fresh state (empty board, all refs `''`, not over) satisfies the state invariant |
| `TikTakToe.Opponent` | src/hooks/titaktoe/useTikTakToe.ts:24-27 | the computer symbol is a mark and differs from the human's choice, so for `'xClass'` or `'oClass'` the two are complementary |
| `TikTakToe.DefinedPlayers` | src/hooks/titaktoe/useTikTakToe.ts:24-27 | definePlayers keeps the state invariant |
| `TikTakToe.DefinePlayersComplementary` | src/hooks/titaktoe/useTikTakToe.ts:24-27 | after definePlayers(c) with a mark c, `playerClass == c`, `aiClass` is the other mark, and the rule applied to `aiClass` gives back c |
| `TikTakToe.PlayersReset` | src/hooks/titaktoe/useTikTakToe.ts:32-36 | resetPlayers sets `playerClass`, `aiClass` and `currentPlayer` to `''`, changes nothing else, and keeps the state invariant |
| `TikTakToe.Filled` | src/hooks/titaktoe/useTikTakToe.ts:39-47 | on an empty target fillCell puts the side to move's mark in the cell and records `Mark(currentPlayer)` at `originBoard[i]`. A marked target leaves the state as it was. Every other cell and every other field is unchanged, and the state invariant (a nine-entry `originBoard`) is kept |
| `TikTakToe.Cleared` | src/hooks/titaktoe/useTikTakToe.ts:71-78 | clearCells empties all nine cells, changes no other field, and keeps the state invariant |
| `TikTakToe.InitialOrigin` | src/hooks/titaktoe/useTikTakToe.ts:81-84 | the board startGame stores has nine entries, entry k being the index k |
| `TikTakToe.Won` | src/hooks/titaktoe/useTikTakToe.ts:97-101 | handleWin ends the game and sets the message to `WinMessage(p)`. No other field changes, and the state invariant is kept |
| `TikTakToe.WinMessage` | src/hooks/titaktoe/useTikTakToe.ts:97-101 | the finish message is "X player won" or "O player won", and "X player won" exactly for `'xClass'` |
| `TikTakToe.WinMessages` | src/hooks/titaktoe/useTikTakToe.ts:97-101 | the finish message is "X player won" for `'xClass'` and "O player won" for `'oClass'` |
| `TikTakToe.Reset` | src/hooks/titaktoe/useTikTakToe.ts:103-107 | resetGame keeps the state invariant |
| `TikTakToe.ResetIdempotent` | src/hooks/titaktoe/useTikTakToe.ts:103-107 | resetGame empties all nine cells, sets the three class-name refs to `''` and the flag to false, leaves the message and `originBoard` alone, and a second reset changes nothing |
| `TikTakToe.Switched` | src/hooks/titaktoe/useTikTakToe.ts:110-115 | switchTurn keeps the state invariant. The side to move becomes `playerClass` or `aiClass`, and nothing else changes |
| `TikTakToe.SwitchTwice` | src/hooks/titaktoe/useTikTakToe.ts:110-115 | from the human's turn, switchTurn gives `aiClass`, and a second switch gives back `playerClass` |
| `TikTakToe.Clicked` | src/hooks/titaktoe/useTikTakToe.ts:117-132 | handleClick keeps the state invariant |
| `TikTakToe.ClickGuards` | src/hooks/titaktoe/useTikTakToe.ts:117-132 | a click is accepted iff both `playerClass` and `currentPlayer` are set, equal, and the target is empty. Otherwise nothing changes, and the result names which of the three checks failed |
| `TikTakToe.ClickPlaces` | src/hooks/titaktoe/useTikTakToe.ts:117-132 | an accepted click marks only the target with the human symbol and records it in `originBoard`. It adds one marked cell and passes the turn to `aiClass`. It ends the game with the winner's message exactly when the human now holds a triple, and that triple runs through the target if there was none before |
| `TikTakToe.Step` | src/hooks/titaktoe/useTikTakToe.ts:134-142 | each returned operation keeps the state invariant |
| `TikTakToe.Run` | src/hooks/titaktoe/useTikTakToe.ts:134-142 | any sequence of returned operations keeps the state invariant |
| `TikTakToe.ReturnedInterfaceNeverPlays` | src/hooks/titaktoe/useTikTakToe.ts:134-142 | suppose no side is to move and the game is not over. Then no sequence of definePlayers, handleClick and resetGame sets a side to move, gives a cell a new mark, or ends the game |
| `TikTakToe.ModuleState.constructor` | src/hooks/titaktoe/useTikTakToe.ts:13 | `originBoard` starts undefined |
| `TikTakToe.Hook.constructor` | src/hooks/titaktoe/useTikTakToe.ts:15-21 | a new hook has nine empty cells, all three class-name refs `''`, no message, the game not over, and the shared `originBoard` as it was |
| `TikTakToe.Hook.DefinePlayers` | src/hooks/titaktoe/useTikTakToe.ts:24-27 | sets the human symbol to the choice and the computer symbol by `Opponent`. Nothing else changes |
| `TikTakToe.Hook.HandleFirstPlayer` | src/hooks/titaktoe/useTikTakToe.ts:28-31 | the side to move becomes, by a nondeterministic choice, the human or the computer symbol. Nothing else changes |
| `TikTakToe.Hook.ResetPlayers` | src/hooks/titaktoe/useTikTakToe.ts:32-36 | the three class-name refs become `''`. Nothing else changes |
| `TikTakToe.Hook.FillCell` | src/hooks/titaktoe/useTikTakToe.ts:39-47 | an empty target gets the side to move's mark, and `originBoard[id]` records it. A marked target and every other cell are untouched |
| `TikTakToe.Hook.EmptyCells` | src/hooks/titaktoe/useTikTakToe.ts:48-61 | returns the ids of exactly the unmarked cells, in child order, and changes nothing |
| `TikTakToe.Hook.IsEmpty` | src/hooks/titaktoe/useTikTakToe.ts:63-65 | a cell is empty iff emptyCells lists it |
| `TikTakToe.Hook.RemoveClasses` | src/hooks/titaktoe/useTikTakToe.ts:67-70 | only the given cell loses its mark |
| `TikTakToe.Hook.ClearCells` | src/hooks/titaktoe/useTikTakToe.ts:71-78 | every cell is emptied. Refs and `originBoard` are unchanged |
| `TikTakToe.Hook.StartGame` | src/hooks/titaktoe/useTikTakToe.ts:81-84 | `originBoard` becomes the indices 0..8, and the side to move becomes the human or the computer symbol. Nothing else changes |
| `TikTakToe.Hook.CheckWin` | src/hooks/titaktoe/useTikTakToe.ts:86-96 | true iff p fills a row, a column or a diagonal. It reads the cells and changes nothing |
| `TikTakToe.Hook.HandleWin` | src/hooks/titaktoe/useTikTakToe.ts:97-101 | the message names the winner and the game is over. Nothing else changes |
| `TikTakToe.Hook.ResetGame` | src/hooks/titaktoe/useTikTakToe.ts:103-107 | the new state is `Reset` of the old one (see `ResetIdempotent`) |
| `TikTakToe.Hook.SwitchTurn` | src/hooks/titaktoe/useTikTakToe.ts:110-115 | the side to move becomes `aiClass` if it was `playerClass`, and `playerClass` otherwise |
| `TikTakToe.Hook.HandleClick` | src/hooks/titaktoe/useTikTakToe.ts:117-132 | the new state and the result are those of `Clicked` (see `ClickGuards`, `ClickPlaces`) |
| `CellLogic.Toggled` | src/hooks/titaktoe/useCellLogic.ts:36-38 | switchTurn always yields a mark, and a different one from any mark it is given |
| `CellLogic.ToggleInvolution` | src/hooks/titaktoe/useCellLogic.ts:36-38 | on the two marks, switchTurn swaps them and undoes itself |
| `CellLogic.Filled` | src/hooks/titaktoe/useCellLogic.ts:17-24 | on an empty target fillCell puts `playerClass` in the cell. A marked target leaves the state as it was. The turn and every other cell are unchanged |
| `CellLogic.Switched` | src/hooks/titaktoe/useCellLogic.ts:36-38 | switchTurn leaves the board alone and always leaves a mark chosen |
| `CellLogic.Clicked` | src/hooks/titaktoe/useCellLogic.ts:40-56 | handleClick keeps a nine-cell board |
| `CellLogic.Play` | src/hooks/titaktoe/useCellLogic.ts:40-56 | any sequence of clicks keeps a nine-cell board |
| `CellLogic.ClickGuards` | src/hooks/titaktoe/useCellLogic.ts:40-56 | a click is accepted iff a mark is chosen and the target is empty. With `playerClass == ''` or on a marked cell, neither the board nor the turn changes |
| `CellLogic.ClickPlaces` | src/hooks/titaktoe/useCellLogic.ts:43-51 | an accepted click marks only the target with the current mark and adds exactly one marked cell. It reports whether the mover now holds a triple, and it toggles the turn whether or not the move won |
| `CellLogic.PlayKeepsMarks` | src/hooks/titaktoe/useCellLogic.ts:17-24 | over any sequence of clicks a marked cell keeps its mark, and the marked count never falls and grows by at most one per click. A chosen mark stays chosen |
| `CellLogic.PlayFirst` | src/hooks/titaktoe/useCellLogic.ts:43-51 | a first click on an empty cell marks it with the current mark and toggles the turn before the remaining clicks are played |
| `CellLogic.PlayChangesOnlyTargets` | src/hooks/titaktoe/useCellLogic.ts:40-56 | a sequence of clicks leaves every cell it does not click as it was |
| `CellLogic.PlayAlternates` | src/hooks/titaktoe/useCellLogic.ts:40-56 | clicks on distinct empty cells all land. The cells get the two marks in turn, starting with the current one, and the side to move follows the parity of the number of clicks |
| `CellLogic.TopAndMiddleRows` | src/hooks/titaktoe/useCellLogic.ts:40-56 | from an empty board with X to move, clicks on cells 0, 3, 1, 4, 2, 5 put X on the top row and O on the middle row |
| `CellLogic.TwoRowsWin` | src/hooks/titaktoe/useCellLogic.ts:25-35 | a board with X on the top row and O on the middle row passes the win check for both marks |
| `CellLogic.BothMarksCanWin` | src/hooks/titaktoe/useCellLogic.ts:47-51 | from an empty board with X to move, clicks on cells 0, 3, 1, 4, 2, 5 give a board on which both X and O hold a triple |
| `CellLogic.Hook.constructor` | src/hooks/titaktoe/useCellLogic.ts:14-15 | a new hook has nine empty cells and the `playerClass` ref's current value |
| `CellLogic.Hook.FillCell` | src/hooks/titaktoe/useCellLogic.ts:17-24 | the target gets `playerClass` only if it holds neither mark. Other cells are untouched |
| `CellLogic.Hook.CheckWin` | src/hooks/titaktoe/useCellLogic.ts:25-35 | true iff p fills a row, a column or a diagonal. It reads the cells and changes nothing |
| `CellLogic.Hook.SwitchTurn` | src/hooks/titaktoe/useCellLogic.ts:36-38 | `'oClass'` becomes `'xClass'`, and anything else becomes `'oClass'` |
| `CellLogic.Hook.HandleClick` | src/hooks/titaktoe/useCellLogic.ts:40-56 | the new board, turn and result are those of `Clicked` (see `ClickGuards`, `ClickPlaces`) |

## Left out

- Vue refs and reactivity, `HTMLDivElement`, `classList` and `MouseEvent`: the container is an array of nine cells, and a click names a cell index. A click whose target is not one of the nine cells is not modelled.
- Cell ids: the template that renders the cells is not part of this model. The model assumes child i has id `i`. It uses this for `originBoard[parseInt(target.id)]` and for the ids `emptyCells` returns.
- The unmounted container: `checkWin`, `emptyCells` and `clearCells` do nothing (or return `undefined`) while `container` is null. The model assumes the mounted container.
- Class names other than `''`, `'xClass'` and `'oClass'` in the refs (for example `definePlayers` called with another string): these are not modelled.
- `alert` and `console.log`: the alerts of `useTikTakToe.handleClick` become the `NoPlayer` and `NotYourTurn` results, and state is unchanged where the code only alerts. The `console.log` of `useCellLogic.handleClick` becomes the flag of `Placed(won)`. In `useTikTakToe`, `Placed(won)` only reports what `handleWin` already did to the state. `Occupied` has no counterpart in either hook: the code silently does nothing for a click on a marked cell, and the model names that case.
- `Math.random` in `handleFirstPlayer`: it becomes a nondeterministic choice between the two symbols, not a float comparison.
- The run-time errors that the callers rule out (`classList.add('')`, or writing to an undefined `originBoard`) are not modelled. `FillCell` and `SwitchTurn` require the side to move to be set, or `originBoard` to be defined, as `handleClick` guarantees. `HandleFirstPlayer` requires `originBoard` to be defined, as `startGame` guarantees by assigning it first.
- `originBoard` is shared by all instances of the hook through `ModuleState`. No property is proved about two instances used together.
- The commented-out `minimax` and alternate hook (useTikTakToe.ts:145-182): this is dead, incomplete code with no search behaviour.
- `usePlayerClass.ts`, the setter of the ref that `useCellLogic` receives: the `CellLogic.Hook` constructor takes the ref's value, and later writes by that setter are not modelled.
