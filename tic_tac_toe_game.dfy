/**
 * The turn rules held inside the TicTacToeGame screen (MainActivity.kt):
 * the difficulty mapping, the starting state, the human click and restart,
 * with the invariant that ties the turn to the number of marks.
 */
module TicTacToeGame {
  import opened Wrappers
  import opened GameMode
  import opened GameState
  import opened Engine

  /** The label each difficulty button of the mode-selection screen passes on. */
  function DifficultyLabel(d: Difficulty): string {
    match d
    case Easy => "Easy"
    case Medium => "Medium"
    case Hard => "Hard"
  }

  /** The `when (difficulty)` mapping; any other label, or none (null), means Medium. */
  function ParseDifficulty(difficulty: Option<string>): (d: Difficulty)
    ensures d == Easy <==> difficulty == Some("Easy")
    ensures d == Hard <==> difficulty == Some("Hard")
    ensures d == Medium <==> difficulty != Some("Easy") && difficulty != Some("Hard")
  {
    match difficulty
    case Some(name) =>
      if name == "Easy" then Easy
      else if name == "Medium" then Medium
      else if name == "Hard" then Hard
      else Medium
    case None => Medium
  }

  /** Every button label maps back to its own difficulty. */
  lemma ParseDifficultyOfLabel(d: Difficulty)
    ensures ParseDifficulty(Some(DifficultyLabel(d))) == d
  {
  }

  /** The state the game screen starts from for the selected mode. */
  function StartGame(isSinglePlayer: bool, difficulty: Option<string>): (s: State)
    ensures s.gameType == SinglePlayer <==> isSinglePlayer
    ensures s.difficulty == ParseDifficulty(difficulty)
    ensures s.currentPlayer == X && Count(s.board, Empty) == 9
    ensures CheckWinner(s.board) == None
  {
    NewGame(if isSinglePlayer then SinglePlayer else TwoPlayer, ParseDifficulty(difficulty))
  }

  function Other(p: Player): (q: Player)
    ensures q != p
  {
    if p == X then O else X
  }

  /**
   * A cell accepts a click only while it is empty, the game is undecided,
   * and either two people play or it is X's (the human's) turn.
   */
  predicate CellEnabled(s: State, p: Pos)
    requires OnBoard(p)
  {
    s.board[Index(p)] == Empty &&
    CheckWinner(s.board) == None &&
    (s.gameType == TwoPlayer || s.currentPlayer == X)
  }

  /**
   * A click on cell `p`: on an enabled cell the mover's mark is written
   * there and the turn passes to the other player; a disabled cell
   * ignores the click.
   */
  function Click(s: State, p: Pos): (t: State)
    requires OnBoard(p)
    ensures !CellEnabled(s, p) ==> t == s
    ensures CellEnabled(s, p) ==>
      t.board[Index(p)] == s.currentPlayer &&
      (forall k :: 0 <= k < 9 && k != Index(p) ==> t.board[k] == s.board[k]) &&
      t.currentPlayer != s.currentPlayer &&
      t.gameType == s.gameType && t.difficulty == s.difficulty
  {
    if CellEnabled(s, p) then
      var updatedBoard := s.board[Index(p) := s.currentPlayer];
      s.(board := updatedBoard, currentPlayer := Other(s.currentPlayer))
    else
      s
  }

  /**
   * The guard of the screen's computer-move trigger: a single-player game,
   * O to move, and no result yet. makeAIMove itself does not test the mode.
   */
  predicate AITurn(s: State) {
    s.gameType == SinglePlayer && s.currentPlayer == O && CheckWinner(s.board) == None
  }

  /**
   * The trigger's body, without its delay: when the guard holds the computer
   * plays one O into an empty cell and X moves next; otherwise nothing happens.
   */
  method AIMoveTrigger(s: State) returns (t: State)
    ensures !AITurn(s) ==> t == s
    ensures AITurn(s) ==>
      t.currentPlayer == X && t.gameType == s.gameType && t.difficulty == s.difficulty &&
      exists k :: 0 <= k < 9 && s.board[k] == Empty && t.board == s.board[k := O]
  {
    if AITurn(s) {
      t := MakeAIMove(s);
    } else {
      t := s;
    }
  }

  /** "Restart Game": a fresh board, X to move, the same mode and difficulty. */
  function Restart(s: State): (t: State)
    ensures forall k :: 0 <= k < 9 ==> t.board[k] == Empty
    ensures t.currentPlayer == X && t.gameType == s.gameType && t.difficulty == s.difficulty
    ensures CheckWinner(t.board) == None
  {
    NewGame(s.gameType, s.difficulty)
  }

  /**
   * X moves first and the players alternate, so X to move means as many X
   * marks as O marks, and O to move means exactly one X mark more.
   */
  predicate TurnConsistent(s: State) {
    if s.currentPlayer == X then Count(s.board, X) == Count(s.board, O)
    else Count(s.board, X) == Count(s.board, O) + 1
  }

  lemma NewGameTurnConsistent(gameType: GameType, difficulty: Difficulty, s: State)
    ensures TurnConsistent(NewGame(gameType, difficulty))
    ensures TurnConsistent(Restart(s))
  {
  }

  /** An accepted click fills exactly one cell and keeps the turn consistent with the marks. */
  lemma {:induction false} ClickKeepsTurnConsistent(s: State, p: Pos)
    requires OnBoard(p) && TurnConsistent(s)
    ensures TurnConsistent(Click(s, p))
    ensures CellEnabled(s, p) ==> EmptyCount(Click(s, p).board) == EmptyCount(s.board) - 1
  {
    if CellEnabled(s, p) {
      CountPlace(s.board, Index(p), s.currentPlayer, X);
      CountPlace(s.board, Index(p), s.currentPlayer, O);
      CountPlace(s.board, Index(p), s.currentPlayer, Empty);
    }
  }

  /**
   * The computer's move (an O written into an empty cell, X to move next,
   * as makeAIMove produces it on O's turn) keeps the turn consistent too.
   */
  lemma {:induction false} AIMoveKeepsTurnConsistent(s: State, t: State, k: CellIndex)
    requires TurnConsistent(s) && s.currentPlayer == O
    requires s.board[k] == Empty && t.board == s.board[k := O] && t.currentPlayer == X
    ensures TurnConsistent(t)
    ensures EmptyCount(t.board) == EmptyCount(s.board) - 1
  {
    CountPlace(s.board, k, O, X);
    CountPlace(s.board, k, O, O);
    CountPlace(s.board, k, O, Empty);
  }
}
