# Tic-tac-toe: rules engine, round and match

A Dafny model of a browser tic-tac-toe game. It covers three parts.

- **The rules engine** (`GameLogic`, from `src/utils/gameLogic.ts`):
  - the table of eight winning lines;
  - the winner scan, which takes the first uniformly marked line in table order;
  - the board-full test, the predicate `IsBoardFull`, whose definition is the source's `every` test (`FullIffNoEmptyCells` relates it to the empty-cell list);
  - the computer's random pick among the empty cells.
- **One round** (`GameComponent.Game`, from `src/components/Game.tsx`). The class holds the board, the player to move and the recorded result. It covers:
  - clicks;
  - the computer's move and the condition that triggers it;
  - the classification of each new board (win, draw or round goes on);
  - the reset.
- **The match** (`AppComponent.App`, from `src/App.tsx`). The class holds the number of rounds, the round counter, the three score counters and the screen shown. It covers:
  - the end-of-round bookkeeping;
  - the start of a new match;
  - the start button's name check;
  - the final verdict.

Each React state update is modelled as an immediate field assignment.

A cell is `Empty` (the source's `null`) or `Mark(X)` / `Mark(O)`. The random number `Math.random()` is a parameter: the fraction `num / den` with `num < den`, which lies in [0, 1). In exact arithmetic the pick `Math.floor(random * n)` is then `(num * n) / den`. Every empty cell can be reached by some draw (`ComputerMoveReachesEveryEmptyCell`).

Invariants the classes keep:

- **Round** (`Game.Valid`):
  - X moves first and the players alternate, so X's mark count minus O's is 0 on X's turn and 1 on O's turn;
  - the recorded result is the classification of the board;
  - no board reached in play has uniform lines of both players;
  - after a win it is the loser's turn.
- **Match** (`App.Valid`):
  - the three counters add up to the number of rounds ended since the last start;
  - the round counter stays between 1 and the match length;
  - the match ends after exactly that many rounds, through the transitions modelled (the "Exit Game" button, left out, ends it sooner).

`scenarios.dfy` has concrete boards and a played round and match.

## Model

| member | source | states |
|---|---|---|
| GameLogic.LineOwner | src/utils/gameLogic.ts:17-19 | The test applied to one line yields `p` exactly when all three cells hold `p`'s mark, and nothing exactly when the line is not uniformly marked. |
| GameLogic.CheckWinner | src/utils/gameLogic.ts:15-23 | The loop over the table, with its early return, computes the table scan `Winner`. |
| GameLogic.WinnerFromCharacterized | src/utils/gameLogic.ts:4-23 | The scan from line `k` on finds `p` iff `p` completes the first uniform line from `k` on, and finds nothing iff no line from `k` on is uniform. |
| GameLogic.WinnerIsFirstUniformLine | src/utils/gameLogic.ts:4-21 | A non-null winner `p` is the mark that completes some table line, namely the first uniform line in table order, and conversely. This holds even on boards with two winning lines. |
| GameLogic.WinnerNoneIff | src/utils/gameLogic.ts:18-22 | The result is null exactly when no line is uniformly marked, however full the board is. |
| GameLogic.WinnerComplete | src/utils/gameLogic.ts:16-20 | A completed line always yields a winner. When all uniform lines have the same owner, that owner is the winner. |
| GameLogic.CollectEmptyCells | src/utils/gameLogic.ts:30-33 | The accumulating loop produces the list `EmptyCells` of empty indices. |
| GameLogic.EmptyCellsExact | src/utils/gameLogic.ts:30-33 | Every listed index is an empty cell of the board. Every empty cell is listed. The list is strictly increasing, so each index appears once. |
| GameLogic.FullIffNoEmptyCells | src/utils/gameLogic.ts:25-33 | The board is full (every cell occupied) exactly when the empty-cell list is empty. |
| GameLogic.PickIndex | src/utils/gameLogic.ts:35 | The floored draw, for a random value in [0, 1), is below the list length when the list is non-empty, and 0 when it is empty. |
| GameLogic.ComputerMove | src/utils/gameLogic.ts:29-35 | There is a pick exactly when the board is not full. The pick is then an index of the board whose cell is empty. |
| GameLogic.GetComputerMove | src/utils/gameLogic.ts:29-35 | The method, which collects the list and then indexes it, computes `ComputerMove`. |
| GameLogic.ComputerMoveSingleEmpty | src/utils/gameLogic.ts:35 | With exactly one empty cell, every random value picks that cell. |
| GameLogic.ComputerMoveReachesEveryEmptyCell | src/utils/gameLogic.ts:30-35 | Every entry of the empty-cell list is the pick of some random value in [0, 1). |
| GameLogic.CountAfterPlace | src/components/Game.tsx:64-65 | Marking one empty cell for `p` adds one to `p`'s count and leaves the other player's count unchanged. |
| GameComponent.ClassifyPartition | src/components/Game.tsx:71-84 | The result `checkGameState` records is exactly one of three. It is a win for the player completing the first uniform line; a draw on a full board with no uniform line; or undecided when an empty cell remains and no line is uniform. |
| GameComponent.PlaceCompletesOnlyMover | src/components/Game.tsx:62-67 | A move on an undecided board can complete lines only for the player who moved. |
| GameComponent.OneOwnerWinner | src/utils/gameLogic.ts:16-20 | On a board whose uniform lines share one owner, any completed line names the winner. |
| GameComponent.UndecidedHasEmptyCell | src/components/Game.tsx:52-55 | On an undecided board the computer's pick exists, so the full-board `undefined` index cannot occur on the computer's turn. |
| GameComponent.CountAbsent | src/components/Game.tsx:28 | A board with no mark of `p` counts zero for `p`. |
| GameComponent.Game.constructor | src/components/Game.tsx:28-30 | The round starts with nine empty cells, X to move and no result. That state satisfies the round invariant. |
| GameComponent.Game.EmptyBoardIsFresh | src/components/Game.tsx:28-30 | The empty board has zero marks of each player, no uniform line, and is undecided. |
| GameComponent.Game.CheckGameState | src/components/Game.tsx:71-84 | On a winner: record it and report it once. Otherwise, on a full board: record and report a draw. Otherwise: leave the result alone and report nothing. |
| GameComponent.Game.HandleCellClick | src/components/Game.tsx:61-69 | (1) A click on an occupied cell, or after a result is recorded, changes nothing and reports nothing. (2) Otherwise the board changes in exactly the clicked cell, which gets the old player's mark, the player flips, and the result is classified and reported. (3) The round invariant is kept. |
| GameComponent.Game.PlacedWinnerIsMover | src/components/Game.tsx:65-68 | A win recorded right after a move belongs to the player who moved. |
| GameComponent.Game.MakeComputerMove | src/components/Game.tsx:52-59 | On the computer's turn, the pick exists. `O` goes into exactly that cell and no other, X is to move, the result is classified and reported, and the invariant is kept. |
| GameComponent.Game.ComputerTurn | src/components/Game.tsx:33-40 | The computer moves exactly in single-player mode, on O's turn, with no result recorded. Otherwise nothing changes. |
| GameComponent.Game.ResetGame | src/components/Game.tsx:86-90 | The reset restores the initial state of the constructor and keeps the invariant. |
| AppComponent.Credit | src/App.tsx:20-23 | Exactly one counter goes up by one: X's or O's for that winner, the draw counter for a draw or no winner. The total therefore grows by one. |
| AppComponent.MatchLength | src/App.tsx:25-29 | The length of a match: the rounds setting when it is at least 1, and 1 otherwise, since the round test then fails on round 1. That a match ends after exactly `MatchLength(rounds)` rounds is the Ended clause of `App.Valid`, which `HandleGameEnd` keeps. |
| AppComponent.CanStart | src/App.tsx:139-150 | Starting needs the X name, and also the O name unless the computer plays O. Both directions are stated. |
| AppComponent.FinalVerdict | src/App.tsx:244-250 | X wins iff X's score is higher, O wins iff O's score is higher, and it is a tie iff the two are equal. Draws do not count. |
| AppComponent.App.constructor | src/App.tsx:7-17 | No mode, three rounds, round 1, zero scores, the setup screen and empty names. That state satisfies the match invariant. |
| AppComponent.App.HandleGameEnd | src/App.tsx:19-30 | The scores are credited once. Before the last round the round counter advances and the screen stays; on the last round the counter stays and the match ends. The mode, rounds and names are unchanged. The invariant is kept. |
| AppComponent.App.StartNewGame | src/App.tsx:32-36 | Zero scores, round 1, the playing screen, and the invariant holds again. |
| AppComponent.App.StartGame | src/App.tsx:139-150 | From any state, the match starts exactly when the name check passes, and a started match satisfies the invariant. Otherwise the state is unchanged, so an invariant that held still holds. Mode, rounds and names are unchanged. |
| AppComponent.App.PlayCell | src/App.tsx:192-200 | A click on the round in play: the round's transition, with any reported result handed to `HandleGameEnd` once. Mode, rounds and names are unchanged. |
| AppComponent.App.PlayComputer | src/App.tsx:192-200 | The computer's turn on the round in play, with any reported result handed to `HandleGameEnd` once. Mode, rounds and names are unchanged. |
| Scenarios.TopRowWinsForX | src/utils/gameLogic.ts:15-20 | Three X marks across the top row make X the winner. |
| Scenarios.FullBoardWithoutLineIsDraw | src/components/Game.tsx:76-82 | A full board without a uniform line has no winner and is classified as a draw. |
| Scenarios.SingleFreeCellIsTaken | src/utils/gameLogic.ts:35 | With only cell 0 free, the computer takes cell 0 for every random value. |
| Scenarios.OpenBoard | src/components/Game.tsx:71-84 | A board with a free cell and no uniform line is undecided. |

## Left out

- Rendering (JSX, animation, confetti, styling) and `src/components/Board.tsx`. These are presentation only. Board.tsx's guard against clicks on occupied cells repeats the one in `handleCellClick`.
- The 500 ms delay before the computer moves, and the effect cleanup. In the source a player can click during that delay, on O's turn in single-player mode. The model runs the computer's turn (`ComputerTurn`) as one step and leaves that timing window out.
- React's batched, asynchronous state updates. Every update is an immediate assignment, so `handleGameEnd` reads the current round after the scores are credited. The source reads `currentRound` from the render it was called in, which gives the same value.
- The uniform distribution of `Math.random()` and floating point. The random value is a fraction `num / den` in [0, 1), taken as a parameter, and the product with the list length is exact. With doubles the rounded product can reach the next integer (random = 6004799503160661 * 2^-53 and 3 cells give 2.0, not the exact 1.99...); the pick is then another empty cell, so legality and reachability are unaffected.
- `parseInt` of the rounds input. A `NaN` setting is not modelled; `rounds` is any integer, and `MatchLength` covers settings below 1.
- The alert shown when names are missing, the page reload, and the name, mode and rounds input handlers. These are browser I/O. The model's fields are public, so a caller sets the mode, names and rounds directly; `StartGame` accepts any state, as the start button does.
- The navigation buttons, which are not modelled. "Exit Game" (src/App.tsx:214) ends a match after fewer than `rounds` rounds and shows the verdict, so `App.Valid`'s "ends after exactly `MatchLength(rounds)` rounds" holds only for the transitions modelled. "Back to Setup" and "New Game" (src/App.tsx:206, 257) return to the setup screen with the old scores and round counter, a state `App.Valid`'s Setup clause excludes. `StartGame` does not require `App.Valid`, so a match started from those states is covered and satisfies the invariant again.
- The string `"draw"` that the source stores in `winner` (outside its declared type) is the `Outcome.Draw` value. The value `null` passed to `handleGameEnd` is `Outcome.Undecided`, and it is credited as a draw, as in the source.
- AppComponent.App.HandleGameEnd: requires the playing screen. The round component, whose callback it is, is only shown on that screen.
- AppComponent.App.StartGame: requires a chosen mode. The start button is only shown once a mode is chosen.
- GameComponent.Game.MakeComputerMove: requires O's turn with no recorded result. Those are the conditions of the effect that calls it. Under the round invariant they also rule out a full board, so the source's `undefined` pick on a full board is unreachable there. `ComputerMove` still models that case, as `None`.
