# Tic-tac-toe engine, modelled in Dafny

This project models the game logic of a minimalist Android tic-tac-toe app
written in Kotlin. It covers three parts:

- the immutable `GameState` record and its terminal-state evaluator `checkWinner`;
- the computer opponent, which plays O. It picks the first free cell (Easy),
  a random free cell (Medium), or the best cell found by an exhaustive,
  depth-scored minimax search (Hard). `makeAIMove` then writes O into the
  chosen cell copy-on-write;
- the turn rules held inside the game screen: which cells accept a click,
  what a click writes, restart, and how the selected difficulty label maps
  to a `Difficulty`.

Files:

- `wrappers.dfy`: `Option`. It stands for Kotlin's `null` and for the `(-1, -1)` "no move" pair.
- `game_mode.dfy`: the `GameType` and `Difficulty` enums.
- `game_state.dfy`: cells, the board, the state, `checkWinner`, and mark counting.
- `engine.dfy`: the three move strategies, minimax and `makeAIMove`.
- `tic_tac_toe_game.dfy`: the click and restart rules, the computer-move trigger, the difficulty mapping,
  and the invariant linking whose turn it is to the number of marks.

A cell is `Empty | X | O` rather than the strings `""`, `"X"` and `"O"`. The
board is a sequence of 9 cells in row-major order, so cell (row, col) is at
index `3 * row + col`. Moves keep the Kotlin code's `(row, col)` form (`Pos`).

minimax is specified by the function `Score`, with helpers `Fold` and
`ChildScore`. `Fold` is the running maximum or minimum after the first `n`
cells, starting from Kotlin's `Int.MIN_VALUE` or `Int.MAX_VALUE`, exactly as
the loops accumulate it. The method `Minimax` keeps the Kotlin code's two
nested-loop branches and is proved equal to `Score`. Termination uses the
number of empty cells, which drops by one at every recursive call.

Three details of the Kotlin code shape the model:

- A click on a filled cell is ignored because the cell is disabled
  (MainActivity.kt:331-333). `Click` therefore returns the state unchanged;
  there is no error result.
- Medium uses the library's `random()`. The model makes an arbitrary choice
  among the collected empty cells.
- `makeAIMove` tests only that there is no result and that O is to move
  (MainActivity.kt:60). The single-player test lives in the screen's trigger
  (MainActivity.kt:253-257), modelled by `AITurn` and `AIMoveTrigger`. So
  `MakeAIMove`, called directly, also plays O in a two-player game.

## Model

| member | source | states |
|---|---|---|
| `GameState.NewGame` | app/src/main/java/me/namanvrati/tictactoe/GameState.kt:3-8 | the default state has an all-empty board, X to move, the given mode and difficulty (TWO_PLAYER and MEDIUM by default), and no result |
| `GameState.ScanLines` | app/src/main/java/me/namanvrati/tictactoe/GameState.kt:21-24 | the line scan from line `i` on returns the owner of a complete line with no decided line before it, and returns nothing exactly when no remaining line is complete |
| `GameState.CheckWinner` | app/src/main/java/me/namanvrati/tictactoe/GameState.kt:9-26 | X (resp. O) wins iff the first complete line, in the order rows, columns, diagonals, is X's (resp. O's); Draw iff no line is complete and all 9 cells are filled; null iff no line is complete and some cell is empty. It reads only the board |
| `GameState.FirstLineHasOneOwner` | app/src/main/java/me/namanvrati/tictactoe/GameState.kt:21-24 | the first complete line has a single owner, so a board holding both an X line and an O line has one defined result |
| `GameState.EarlierLineWins` | app/src/main/java/me/namanvrati/tictactoe/GameState.kt:10-24 | on every board, a complete line of `p` with no complete line before it (in the order rows, columns, diagonals) makes `p` the winner, whatever later lines hold |
| `GameState.FullBoards` | app/src/main/java/me/namanvrati/tictactoe/GameState.kt:21-25 | on every full board the result is Draw exactly when no line is complete; a full board with a line is a win, not a Draw |
| `GameState.ExampleRowBoards` | app/src/main/java/me/namanvrati/tictactoe/GameState.kt:10-24 | on two example boards holding an X row and an O row, the earlier row decides |
| `GameState.ExampleFullBoards` | app/src/main/java/me/namanvrati/tictactoe/GameState.kt:21-25 | on two example full boards, one without a line gives Draw and one with an X line gives X |
| `GameState.EmptyCount` | app/src/main/java/me/namanvrati/tictactoe/GameState.kt:25 | the number of empty cells is at most 9 and is zero exactly when the board is full |
| `GameState.CountPlace` | app/src/main/java/me/namanvrati/tictactoe/MainActivity.kt:116-122 | writing a mark into an empty cell adds one to that mark's count and removes one empty cell; other counts stay the same |
| `Engine.TerminalScore` | app/src/main/java/me/namanvrati/tictactoe/MainActivity.kt:103-109 | an O win scores positive (10 - depth), an X win negative (depth - 10), a draw 0, for depths below 10 |
| `Engine.FoldIsExtremum` | app/src/main/java/me/namanvrati/tictactoe/MainActivity.kt:112-141 | after the first n cells, `best` is at least (maximizing) or at most (minimizing) every child score seen, and is either the seed or one of those scores |
| `Engine.ScoreRange` | app/src/main/java/me/namanvrati/tictactoe/MainActivity.kt:102-143 | with depth plies simulated and at most 9 - depth empty cells, the score lies in [depth - 10, 10 - depth] |
| `Engine.ScoreIsBestChild` | app/src/main/java/me/namanvrati/tictactoe/MainActivity.kt:112-142 | on an undecided board, minimax is the maximum (O to move) or minimum (X to move) over all empty cells of the child's score, is attained by one child, and is never the Int.MIN_VALUE / Int.MAX_VALUE seed |
| `Engine.Minimax` | app/src/main/java/me/namanvrati/tictactoe/MainActivity.kt:102-143 | the nested-loop search returns exactly the score `Score` defines |
| `Engine.RootScoreTen` | app/src/main/java/me/namanvrati/tictactoe/MainActivity.kt:150-156 | a candidate move scores 10 under `minimax(child, 0, false)` exactly when O's mark there wins at once |
| `Engine.BestSoFarStep` | app/src/main/java/me/namanvrati/tictactoe/MainActivity.kt:148-163 | one inner-loop step of findBestMove keeps `move` the first cell of maximal score so far, using a strict `>` against the Int.MIN_VALUE seed |
| `Engine.FindBestMove` | app/src/main/java/me/namanvrati/tictactoe/MainActivity.kt:145-165 | returns the first empty cell in row-major order whose score is maximal (every earlier empty cell scores strictly less); returns no move exactly when the board is full |
| `Engine.HardTakesImmediateWin` | app/src/main/java/me/namanvrati/tictactoe/MainActivity.kt:145-165 | if some empty cell wins for O at once, the best move wins for O at once |
| `Engine.RootScoreLosing` | app/src/main/java/me/namanvrati/tictactoe/MainActivity.kt:102-156 | a candidate move after which X can win at once scores -9 under `minimax(child, 0, false)` |
| `Engine.DoubleThreatMoveLoses` | app/src/main/java/me/namanvrati/tictactoe/MainActivity.kt:150-156 | on a board where X threatens two lines and O cannot win at once, every candidate move scores -9 |
| `Engine.DoubleThreatKeepsFirstCell` | app/src/main/java/me/namanvrati/tictactoe/MainActivity.kt:145-165 | on that board the strict `score > bestScore` keeps the first empty cell (0,0), which blocks neither threat |
| `Engine.FindFirstAvailableMove` | app/src/main/java/me/namanvrati/tictactoe/MainActivity.kt:81-88 | returns an empty cell with every earlier cell (row-major) filled; returns no move exactly when the board is full |
| `Engine.FindRandomMove` | app/src/main/java/me/namanvrati/tictactoe/MainActivity.kt:90-100 | returns some empty cell; returns no move exactly when the board is full |
| `Engine.MakeAIMove` | app/src/main/java/me/namanvrati/tictactoe/MainActivity.kt:59-79 | returns the state unchanged when a result exists or it is not O's turn. Otherwise exactly one empty cell becomes O, all other cells are kept, X is to move, and mode and difficulty are kept. The cell is the first free one on Easy and the best move on Hard |
| `TicTacToeGame.AIMoveTrigger` | app/src/main/java/me/namanvrati/tictactoe/MainActivity.kt:252-261 | the computer moves only in a single-player game with O to move and no result. It then writes one O into an empty cell, X moves next, and mode and difficulty are kept; otherwise the state is unchanged |
| `TicTacToeGame.ParseDifficulty` | app/src/main/java/me/namanvrati/tictactoe/MainActivity.kt:239-244 | "Easy" gives EASY and "Hard" gives HARD, each exactly; everything else, including "Medium", an unknown label and null, gives MEDIUM |
| `TicTacToeGame.ParseDifficultyOfLabel` | app/src/main/java/me/namanvrati/tictactoe/MainActivity.kt:211-222 | the label each difficulty button sends maps back to that difficulty |
| `TicTacToeGame.StartGame` | app/src/main/java/me/namanvrati/tictactoe/MainActivity.kt:235-247 | the game starts single-player exactly when chosen, with the mapped difficulty, 9 empty cells, X to move and no result |
| `TicTacToeGame.Other` | app/src/main/java/me/namanvrati/tictactoe/MainActivity.kt:341 | the next player always differs from the current one |
| `TicTacToeGame.Click` | app/src/main/java/me/namanvrati/tictactoe/MainActivity.kt:331-345 | a click has an effect only on an empty cell while there is no result and the mode is two-player or X is to move. It then writes the current player's mark into that cell only, switches the player, and keeps mode and difficulty; otherwise the state is unchanged |
| `TicTacToeGame.Restart` | app/src/main/java/me/namanvrati/tictactoe/MainActivity.kt:371 | restart gives an empty board, X to move, the same mode and difficulty, and no result |
| `TicTacToeGame.NewGameTurnConsistent` | app/src/main/java/me/namanvrati/tictactoe/MainActivity.kt:371 | a new game, and the restart of any state, has as many X marks as O marks with X to move |
| `TicTacToeGame.ClickKeepsTurnConsistent` | app/src/main/java/me/namanvrati/tictactoe/MainActivity.kt:331-345 | an accepted click fills exactly one cell and keeps "X to move iff #X = #O, O to move iff #X = #O + 1" |
| `TicTacToeGame.AIMoveKeepsTurnConsistent` | app/src/main/java/me/namanvrati/tictactoe/MainActivity.kt:68-77 | the computer's O move fills exactly one cell and keeps the same turn/mark-count invariant |

## Left out

- The Compose UI and navigation are not modelled: the mode-selection screen, the scaffold and top bar, cell rendering and colours, and the back handler. They are presentation only.
- The feedback link is not modelled. It is an Android `Intent` launch.
- The `LaunchedEffect` scheduling is not modelled: when it re-runs (its keys) and its `delay(100)`. This is coroutine scheduling. Its guard and its call to `makeAIMove` are modelled as `AITurn` and `AIMoveTrigger`.
- `FindRandomMove` does not model the uniform distribution of `emptyCells.random()`. The pick is an arbitrary choice, and only its being an empty cell is proved.
- A proof that Hard never loses is not included. It needs reasoning over the whole game tree. The model proves only that Hard takes an immediate win.
- Hard does not always block. Facing two threats, every move scores -9, and it plays the first empty cell (`DoubleThreatKeepsFirstCell`). A proof that Hard blocks a single threat is not included.
- That a board reached by legal play never holds both an X line and an O line is not proved. `CheckWinner` is fully characterised on every board, including such boards.
- Kotlin's 32-bit `Int` is not modelled as wrapping. Scores stay in [-10, 10] and depths in [0, 9] (`ScoreRange`), so no arithmetic in the core can overflow. `INT_MIN`/`INT_MAX` keep the seeds' exact values.
