# International draughts (10×10): rules, game object and computer player

This project models the rule engine of a browser game of draughts on a 10×10
board. The source has three files that each carry their own copy of the rules:

- `www/game.js` is the current game object, with the soufflée rule
  (a piece that should have captured is "blown" off the board), a 4-second
  capture-chain timer and a computer player for white.
- `game.js` is an older version of the same object. It differs in its
  soufflée rule, its search depths and its lack of move ordering.
- `ai-worker.js` is a web worker that searches for black. It undoes its
  trial moves incrementally.

The three copies of the move generator are the same code. They are modelled
once (modules `Boards`, `Moves`, `Sides`) and proved equal to closed-form
rules: men step forward and capture in all four directions, and kings fly
along a diagonal and capture a single enemy.

The search (`Search`) is written for any move generator, move application and
evaluator. It holds the fail-soft alpha-beta theorem: called from the full
window, the pruned `minimax` equals plain minimax. It also holds the root loop
that keeps the first best move. `Ordering` is the `sortMovesByPriority`
comparator and the stable sort.

`Rules` gives every method of the game object as a pure transition of its
fields and holds the lemmas about them. `Play.CheckersGame` is the object
itself: its methods update its fields in place and are proved to end in the
state the matching `Rules` transition gives. `Worker` is `ai-worker.js`:
`saveState`, `applyMove` and `restoreState` on the worker's global board, the
search for black, and the proof that every trial is undone exactly.

Several things are ghost values or parameters rather than behaviour:

- The evaluators `evaluateBoard` are unspecified functions `Board -> real`.
- Deferred `setTimeout` bodies are single steps: the 400 ms and 1000 ms soufflée
  delays, and the computer's thinking delay.
- The 4-second timer is a field naming the square it watches, plus a `Timeout`
  event.
- `Math.random()` is a natural-number parameter `pick`, used as `pick % n`.
- The JS `±Infinity` of alpha, beta and the running best is the datatype `Ext`.

## Model

| member | source | states |
|---|---|---|
| `Boards.CreateBoard` | www/game.js:112-130 | the board built is the opening layout |
| `Boards.InitialLayout` | www/game.js:112-130 | the opening layout has 20 black and 20 white pieces, all of them men on dark squares, black exactly in rows 0-3 and white exactly in rows 6-9 |
| `Boards.InitialUnique` | www/game.js:112-130 | the opening layout is a single board |
| `Boards.PiecesOfComplete` | www/game.js:1102-1116 | the row-major collection of a colour's squares lists exactly the squares before the scan point that hold a piece of that colour |
| `Moves.GetPawnMoves` | www/game.js:448-485 | the loops push exactly the simple moves and captures of the closed-form pawn rule, in the source's order |
| `Moves.PawnStepIff` | www/game.js:452-460 | a man's simple move goes one row forward (down for black, up for white) and one column sideways, onto an empty on-board square, and every such square gives one |
| `Moves.PawnJumpIff` | www/game.js:462-484 | a man's capture jumps two squares diagonally in any of the four directions, over an adjacent enemy, onto an empty on-board square, and every such jump is found |
| `Moves.PawnMovesLand` | www/game.js:448-485 | every pawn move lands on an empty on-board square, and a capture names a square holding an enemy |
| `Moves.GetKingMoves` | www/game.js:487-529 | the four `while` loops push exactly what the four ray scans give, in the direction order of the source |
| `Moves.KingMovesByRay` | www/game.js:495-528 | a king's moves and captures are those of its four diagonal rays |
| `Moves.ScanFresh` | www/game.js:500-527 | a ray gives a simple move onto each empty square before the first piece; if that piece is an enemy, one capture of it onto each empty square behind it up to the next piece; a friend or a second piece ends the ray |
| `Moves.ScanPastEnemy` | www/game.js:503-519 | once an enemy is seen, a ray gives no simple move and a capture onto each empty square up to the next piece |
| `Moves.KingMovesLand` | www/game.js:487-529 | every king move lands on an empty on-board square, and a capture names a square holding an enemy |
| `Sides.GetPieceMoves` | www/game.js:403-407 | the king/man dispatch fills the arrays with the moves of the piece on the square |
| `Sides.PieceMovesLand` | www/game.js:403-407 | a generated move never lands on its own origin, and a captured square is neither the origin nor the landing square |
| `Sides.ValidMoves` | www/game.js:441-445 | `getValidMoves` gives the piece's captures if it has any, else its simple moves, whatever `mandatoryCapture` is |
| `Play.CheckersGame.GetValidMoves` | www/game.js:428-446 | returns `ValidMoves` of the clicked square, and nothing for an empty square |
| `Sides.ScanSide` | www/game.js:1036-1058 | the double loop of `getAllMoves` collects, cell by cell, every tagged simple move and every tagged capture of the side |
| `Sides.GetAllMoves` | www/game.js:1032-1065 | returns the side's captures when it has any, else all its simple moves, for either value of `mandatoryCapture` |
| `Sides.SideMovesIff` | www/game.js:1032-1065 | a move is returned exactly when its origin holds a piece of the side and it is a capture of that piece (if the side has any capture) or a simple move of it (if not) |
| `Sides.SideMovesOrdered` | www/game.js:1036-1058 | the returned moves are in row-major order of their origins |
| `Sides.SideMovesLegal` | www/game.js:1032-1065 | every returned move starts from a piece of the side and lands on an empty square, and a capture names a square holding an enemy |
| `Sides.CalculateMustCapture` | www/game.js:700-726 | the loop collects exactly the tagged captures of the side to move |
| `Sides.MustCaptureIff` | www/game.js:700-726 | an entry is listed exactly when it is a capture of a piece of the side, and when the list is not empty it is what `getAllMoves` returns |
| `Sides.OpeningNoCaptures` | www/game.js:112-130 | on the opening layout `calculateMustCapture` finds no capture for black and none for white |
| `Sides.CountMobility` | www/game.js:1012-1030 | the loop's total is the mobility of the side |
| `Sides.MobilityCounts` | www/game.js:1025 | mobility is the number of simple moves plus twice the number of captures of the side |
| `Sides.MobilityZero` | www/game.js:1012-1030 | mobility is zero exactly when no piece of the side has a move or a capture |
| `Sides.HasAdjacentFriend` | www/game.js:996-1009 | true exactly when one of the four diagonal neighbours holds a piece of the colour |
| `Sides.CollectPieces` | www/game.js:1102-1116 | the two lists are the squares of the black and of the white pieces, in row-major order |
| `Sides.HasValidMove` | www/game.js:1127-1144 | the loop finds a move exactly when some listed piece has a move or a capture |
| `Sides.BlockedIff` | www/game.js:1127-1150 | no piece of the side can move exactly when `getAllMoves` returns nothing |
| `Sides.CheckGameOver` | www/game.js:1101-1152 | the loop's verdict is `Winner` |
| `Sides.WinnerCases` | www/game.js:1118-1151 | white wins when black has no piece; black wins when white has none; otherwise the side to move loses exactly when it has no move, and the game goes on exactly when it has one |
| `Sides.CheckPromotion` | www/game.js:666-675 | only the given square can change; a man there is crowned exactly when it stands on its crowning row (row 9 for black, row 0 for white), and kings and empty squares stay as they are |
| `Play.CheckersGame.CheckPromotion` | www/game.js:666-675 | the board becomes `CheckPromotion` of the old one |
| `Sides.ApplyCells` | ai-worker.js:89-107 | a legal move empties its origin and, for a capture, the captured square; the mover lands on its destination, crowned when it reaches its crowning row; no other square changes |
| `Search.Best` | www/game.js:880-904 | the best child value of a node is finite once one move is searched and is the infinite start value before that |
| `Search.MinimaxBounded` | www/game.js:868-905 | with an evaluator bounded by some `bound >= 1000`, every minimax value lies within that bound |
| `Search.AlphaBetaSound` | www/game.js:868-905 | fail-soft alpha-beta: inside the window the pruned value is exact; at or below alpha it is a bound that is at least the true value; at or above beta it is a bound that is at most the true value |
| `Search.MaxLoopSound` | www/game.js:881-892 | the maximising loop with its beta cut-off is fail-soft with respect to the best child value |
| `Search.MinLoopSound` | www/game.js:893-904 | the minimising loop with its alpha cut-off is fail-soft with respect to the least child value |
| `Search.RootWindow` | ai-worker.js:144-183 | from the window (−∞, +∞) the pruned search returns the plain minimax value |
| `Search.FirstBest` | www/game.js:831-844 | with a strict improvement test, the index kept is a best score, and every earlier score is strictly worse |
| `Search.RootChoiceBest` | www/game.js:826-846 | the root loop returns null exactly for an empty list; otherwise it returns a move of the list whose reply has the best minimax value, and the first such move |
| `Search.RootLoopStep` | game.js:759-774 | one pass of the root loop keeps the first best move of the moves searched so far |
| `Search.RootLoopDone` | game.js:759-776 | after the last pass the root loop holds the root choice |
| `Search.CapturesOf` | www/game.js:818 | the filter keeps exactly the captures of the list |
| `Search.EasyChoiceLegal` | www/game.js:817-823 | the easy level returns a move of the list, a capture whenever the list holds one, and null only for an empty list |
| `Ordering.CompareIsKeyOrder` | www/game.js:850-866 | the comparator's sign is the lexicographic order of (capture first, destination row, distance of the column from 4.5), so it is a consistent total preorder |
| `Ordering.SortMoves` | www/game.js:850-866 | the sorted list is a permutation of the input |
| `Ordering.SortMovesSorted` | www/game.js:850-866 | no later move of the sorted list goes strictly before an earlier one |
| `Ordering.SortMovesStable` | www/game.js:850-866 | moves the comparator ties keep their relative order |
| `Ordering.CapturesFirst` | www/game.js:852-853 | every capture comes before every simple move |
| `Rules.Bump` | www/game.js:543 | a colour's captured-piece counter goes up by one and the other one is unchanged |
| `Rules.FindMove` | www/game.js:254 | `validMoves.find` gives nothing exactly when no move lands on the square, and otherwise the first one that does |
| `Rules.FirstOther` | www/game.js:322-339 | gives nothing exactly when every entry starts on the moved square, and otherwise the origin of the first entry that does not |
| `Play.CheckersGame.FindOtherPieceToSoufflee` | www/game.js:322-339 | the loop returns `FirstOther` of the capture list |
| `Rules.CapturesIn` | www/game.js:550-551 | the filter keeps exactly the captures |
| `Rules.ContinuationCaptures` | www/game.js:550-551 | the further captures offered after a capture are exactly the captures of the piece on its landing square |
| `Rules.PromotionOnlyCrowns` | www/game.js:666-675 | promotion keeps every occupant and colour, never uncrowns, and a second call changes nothing |
| `Rules.ValidMovesForSouffleeSpec` | www/game.js:396-426 | nothing for an empty square; only the piece's own moves; with soufflée all captures then all simple moves; otherwise nothing when captures are mandatory, this piece has none and another has one, and `getValidMoves` in every other case |
| `Play.CheckersGame.GetValidMovesForSoufflee` | www/game.js:396-426 | returns `ValidMovesForSoufflee` of the square |
| `Rules.SwitchPlayerEffect` | www/game.js:677-698 | the other side moves; its captures are recomputed; with soufflée the first piece that must capture is recorded; the game ends exactly when `Winner` names someone; the computer is scheduled exactly for a live AI game with white to move; the rest is unchanged |
| `Rules.TurnStartInSync` | www/game.js:677-679 | after `switchPlayer` the `mustCapture` list is exactly the captures of the side now to move, and selecting a piece keeps it so |
| `Play.CheckersGame.SwitchPlayer` | www/game.js:677-698 | the fields become `Rules.SwitchPlayer` of the old ones |
| `Play.CheckersGame.PassTurn` | www/game.js:678-689 | the first steps of `switchPlayer`: the side flips, `mustCapture` and the soufflée piece are recomputed |
| `Rules.ExecuteCaptureEffect` | www/game.js:531-573 | a capture moves the piece, removes the captured one and counts it; if the piece can capture again the chain goes on from its landing square (and the timer starts under soufflée), else the turn ends |
| `Rules.ExecuteSimpleEffect` | www/game.js:531-573 | a simple move is played, the piece crowned on its far row, and the turn passes |
| `Play.CheckersGame.ExecuteMove` | www/game.js:531-573 | the fields become `Rules.ExecuteMove` of the old ones |
| `Play.CheckersGame.ContinueCapture` | www/game.js:545-565 | the capture branch after the take: `Rules.ContinueCapture` |
| `Play.CheckersGame.FinishTurn` | www/game.js:567-572 | the tail of `executeMove`: flags cleared, promotion, selection dropped, turn passed |
| `Rules.WithoutSwitchEffect` | www/game.js:576-592 | the move is played and promoted, and the selection and chain are cleared, without passing the turn |
| `Play.CheckersGame.ExecuteMoveWithoutSwitch` | www/game.js:576-592 | the fields become `Rules.ExecuteMoveWithoutSwitch` of the old ones |
| `Rules.ApplySouffleeEffect` | www/game.js:341-388 | an empty square changes nothing; otherwise the piece leaves the board and its colour's counter goes up; then either the game is over or the turn passes |
| `Play.CheckersGame.ApplySouffleeRule` | www/game.js:341-388 | the fields become `Rules.ApplySouffleeRule` of the old ones |
| `Rules.WebSouffleeEffect` | www/game.js:281-313 | a simple move made while captures were due blows exactly one piece of the mover's side (the first other piece that could capture, else the moved piece on its new square); that side's counter goes up by one; the turn passes unless the game is over; it holds at every turn start of a game begun by the constructor or a restart, where `mustCapture` is in step with the board |
| `Play.CheckersGame.WebSoufflee` | www/game.js:281-313 | the fields become `Rules.WebSoufflee` of the old ones |
| `Rules.ClassicSouffleeEffect` | game.js:245-268 | the piece recorded at the start of the turn is blown if it is still on its square; if the mover moved that piece itself, nothing is blown and the turn passes |
| `Play.CheckersGame.ClassicSoufflee` | game.js:245-268 | the fields become `Rules.ClassicSoufflee` of the old ones |
| `Rules.ClickGuards` | www/game.js:244-262 | clicks do nothing once the game is over or while the computer is to move; during a capture chain only a listed landing square does something, and it continues the chain |
| `Rules.SelectionGuard` | www/game.js:264-275 | with mandatory capture and no soufflée, a piece of the side to move is selected only if it can capture, and then only its captures are offered; it holds at every turn start of a game begun by the constructor or a restart, where `mustCapture` is in step with the board |
| `Play.CheckersGame.HandleCellClick` | www/game.js:244-319 | the fields become `Rules.HandleCellClick` of the old ones |
| `Play.CheckersGame.SelectPiece` | www/game.js:390-394 | the square is selected and its moves offered |
| `Rules.TimeoutEffect` | www/game.js:598-664 | when the 4-second timer fires, the piece it watches (if still there) is blown and counted, the chain ends, and the turn passes unless the game is over |
| `Play.CheckersGame.Timeout` | www/game.js:601-603 | the fields become `Rules.Timeout` of the old ones |
| `Play.CheckersGame.HandleTimerExpired` | www/game.js:614-664 | the fields become `Rules.HandleTimerExpired` of the old ones |
| `Play.CheckersGame.StartCaptureTimer` | www/game.js:598-605 | the timer watches the landing square |
| `Play.CheckersGame.StopCaptureTimer` | www/game.js:607-612 | no timer is pending |
| `Play.CheckersGame.CheckGameOver` | www/game.js:1101-1152 | the fields become `Rules.CheckGameOver` of the old ones |
| `Play.CheckersGame.EndGame` | www/game.js:1154-1156 | the game is over with that winner and the timer stopped; nothing else changes |
| `Rules.RestartEffect` | www/game.js:1305-1321 | a restart gives the opening layout with 20 pieces a side, black to move, zero counters, nothing selected, no chain, no timer, and the game not over; a computer move already scheduled stays scheduled |
| `Rules.RestartInSync` | www/game.js:1305-1321 | after a restart the emptied `mustCapture` list is exactly what `calculateMustCapture` finds on the new board, so every turn of a restarted game, the first included, starts with it in step |
| `Play.CheckersGame.Restart` | www/game.js:1305-1321 | the fields become `Rules.Restart` of the old ones on a fresh opening board |
| `Play.CheckersGame.BackToMenu` | www/game.js:188-193 | the fields become `Rules.BackToMenu` of the old ones: the timer stopped and `gameOver` cleared, nothing else |
| `Play.CheckersGame.StartGame` | www/game.js:87-110 | a game started from the menu: the board is the opening layout and the fields become `Rules.StartGame` of the old ones, which rebuilds only the board |
| `Rules.MenuStartInherits` | www/game.js:87-193 | after `backToMenu` and `startGame` the board is the opening layout, the game is not over and no timer runs, but the side to move, the counters, `mustCapture`, the soufflée piece, the selection, the chain flag and a scheduled computer move are the previous game's; a game against the computer left with white to move and nothing scheduled starts stuck, every click and computer step changing nothing |
| `Play.CheckersGame.constructor` | www/game.js:7-110 | for the first game: the fields take the initial values of the JS constructor (lines 7-38) and the options chosen in `startGame` (lines 87-110); the board is the opening layout; black to move; `mustCapture` is empty and is exactly what `calculateMustCapture` finds on that board |
| `Rules.BestMoveSpec` | www/game.js:809-847 | `getBestMove` returns null exactly when white has no move; otherwise a legal white move; on the easy level a capture whenever there is one; on the other levels a move whose reply has the highest minimax value, the first such in the order tried (sorted on the hard level of `www/game.js`, generation order otherwise) |
| `Play.CheckersGame.GetBestMove` | www/game.js:809-847 | the board is unchanged and the answer is `Rules.BestMove` |
| `Play.CheckersGame.SearchRoot` | www/game.js:826-846 | the root loop with copy-and-restore leaves the board unchanged and returns the root choice |
| `Play.CheckersGame.Minimax` | www/game.js:868-905 | the board is unchanged on return and the score is the alpha-beta value of the node |
| `Play.CheckersGame.MaxSearch` | www/game.js:880-892 | the maximising loop leaves the board unchanged and returns the value of the pruned maximising loop |
| `Play.CheckersGame.MinSearch` | www/game.js:893-904 | the minimising loop leaves the board unchanged and returns the value of the pruned minimising loop |
| `Play.CheckersGame.SimulateMove` | www/game.js:1067-1084 | the board becomes `Apply` of the old one |
| `Rules.PlayAIEffect` | www/game.js:784-807 | with no computer move pending nothing happens; otherwise the pending flag drops and, if white has a move, the chosen legal move is played |
| `Play.CheckersGame.PlayAI` | www/game.js:784-807 | the fields become `Rules.PlayAI` of the old ones |
| `Play.CheckersGame.ExecuteAIMove` | www/game.js:1092-1095 | the move's origin is selected and the move played through `executeMove` |
| `Rules.AIChainWaits` | www/game.js:550-565 | when the computer's move starts a capture chain, white is left to move with nothing scheduled, and neither another computer step nor any click changes the state |
| `Worker.UndoRestores` | ai-worker.js:71-124 | for any move `getAllMoves` can return, `applyMove` followed by `restoreState(saveState(m))` gives back the board cell for cell, with the mover's old rank and the captured piece |
| `Worker.AIWorker.SaveState` | ai-worker.js:71-86 | the record is `Save` of the board before the move |
| `Worker.AIWorker.ApplyMove` | ai-worker.js:89-107 | the board becomes `Apply` of the old one |
| `Worker.AIWorker.RestoreState` | ai-worker.js:110-124 | the board becomes `Restore` of the old one and the record |
| `Worker.AIWorker.Trial` | ai-worker.js:159-162 | save, apply, search the child and restore: the board is unchanged and the score is the child's alpha-beta value |
| `Worker.SortMovesByPriority` | ai-worker.js:126-142 | a permutation of the input; every capture before every simple move; among moves of one kind a higher destination row first, then a column nearer the centre; ties keep their order |
| `Worker.AIWorker.Minimax` | ai-worker.js:144-183 | the board is unchanged on return and the score is the alpha-beta value of the node |
| `Worker.AIWorker.MaxSearch` | ai-worker.js:156-168 | the maximising loop with incremental undo leaves the board unchanged and returns the value of the pruned maximising loop |
| `Worker.AIWorker.MinSearch` | ai-worker.js:169-182 | the minimising loop with incremental undo leaves the board unchanged and returns the value of the pruned minimising loop |
| `Worker.BestMoveSpec` | ai-worker.js:25-68 | the worker returns null exactly when black has no move; otherwise a legal black move; on the easy level a capture whenever there is one; on the other levels a move whose reply has the lowest minimax value, the first such in the sorted order |
| `Worker.AIWorker.GetBestMove` | ai-worker.js:25-68 | the board is unchanged and the answer is `Worker.BestMove` |
| `Worker.AIWorker.SearchRoot` | ai-worker.js:42-67 | the root loop keeps the first move of strictly lowest score and leaves the board unchanged |
| `Worker.AIWorker.constructor` | ai-worker.js:15-18 | a `calculate` request sets the board, the level and the capture option |

The worker's `getAllMoves`, `getPawnMoves`, `getKingMoves` and
`isValidPosition` (ai-worker.js:221-341) are the same code as the game's. They
are the shared `Sides.GetAllMoves`, `Moves.GetPawnMoves`, `Moves.GetKingMoves`
and `Boards.IsValidPosition`. `game.js` repeats the generator, `getAllMoves`
and the transitions of `www/game.js` (game.js:208-1063). The model's
`Rules.Config.edition` selects what differs:

- the soufflée branch of `handleCellClick`;
- the depths (1/3/7 in `www/game.js`, 1/3/5 in `game.js`);
- the sorting of the hard level, which only `www/game.js` does.

## Left out

- The DOM, rendering, animations, messages, and the multiplication quiz
  that guards restart and the way back to the menu in `www/game.js`. The quiz
  only decides whether `doRestart` or `backToMenu` runs; both are modelled.
- The options chosen on the welcome screen are fixed per game object
  (`Rules.Config` is constant). `startGame` re-reads `mandatoryCapture` and
  `souffleeRule` from the form, and the mode and level buttons set `gameMode`
  and `aiDifficulty`. A game started from the menu with options other than
  the first game's is not modelled. `Play.CheckersGame.StartGame` models that
  start with the options unchanged.
- Each `init` registers the button listeners of `setupEventListeners` once
  more, so after a return to the menu one click on a button runs its handler
  several times. Event registration is not modelled.
- Real time: each `setTimeout` body runs as one step at some later
  event. Interleavings of a pending soufflée (400/1000 ms) with clicks are not
  modelled.
- A restart does not cancel a computer move that is already scheduled; the
  model keeps `aiPending` across a restart to say so, but does not model the timer.
- `Math.random`: the random index is the parameter `pick`, taken as
  `pick % n`.
- The bodies of `evaluateBoard` in all three files: they are floating-point sums
  of weights. Each class takes its evaluator as an unspecified function.
  `countMobility` and `hasAdjacentFriend`, the integer parts, are modelled
  exactly.
- JS numbers are reals; the ±1000 scores and ±Infinity are exact.
- The worker's message plumbing (`self.onmessage`, `postMessage`):
  `Worker.AIWorker.GetBestMove` is the answer to one `calculate` request on a
  snapshot.
- `sw.js` and `generate-icons.js`: caching and image files, with no game logic.
- Piece objects are shared by reference in the source. Here a cell holds a value.
  - `simulateMove`/`applyMove` crown by mutating the piece object; the model
    crowns the piece on its destination square, which is the same thing
    whenever that square still holds it.
  - `copyBoard` followed by restore is a value copy.
- `Array.prototype.sort` sorts in place with an unspecified algorithm. The
  model is a stable insertion sort, which gives the same result, since the
  built-in sort is stable and the comparator is a consistent preorder
  (`Ordering.CompareIsKeyOrder`).
- `executeMove` on cases the source never reaches:
  - with no selected piece it would throw on its first line; the model leaves
    the state unchanged;
  - with an empty captured square it would throw when reading the captured
    piece's colour; the model keeps the board shift made so far and stops.
- For a simple move the worker's `saveState` copies `move.capturedRow`, which is
  `undefined`. The model records no captured square.
- `getAllMoves` has two branches, and both return the captures whenever there
  are any. The model follows that code: `mandatoryCapture` never changes the
  result.
- The JS object has no `winner` field. The model's `winner` records the argument
  `endGame` was called with.
- `Rules.AIChainWaits` states what the code does when the computer starts a
  capture chain: `executeMove` returns without passing the turn and nothing
  schedules the computer's next capture. With the soufflée rule off the chain
  stalls. With it on, the 4-second timer started at www/game.js:561 fires
  (`Rules.TimeoutEffect`), blows white's own chaining piece and passes the
  turn. It is stated as a property of the code as written.
