/**
 * The immutable game state and its terminal-state evaluator (GameState.kt).
 * The 3 x 3 board is flattened in row-major order: cell (row, col) is at
 * index 3 * row + col.
 */
module GameState {
  import opened Wrappers
  import opened GameMode

  /** A board cell; GameState.kt writes "", "X" and "O". */
  datatype Cell = Empty | X | O

  /** A mark a player writes; `currentPlayer` is always one of these. */
  type Player = c: Cell | c != Empty witness X

  /** A row-major cell index. */
  type CellIndex = k: int | 0 <= k < 9

  type Board = b: seq<Cell> | |b| == 9
    witness [Empty, Empty, Empty, Empty, Empty, Empty, Empty, Empty, Empty]

  /** A (row, col) pair, the form in which MainActivity.kt passes moves around. */
  datatype Pos = Pos(row: int, col: int)

  predicate OnBoard(p: Pos) {
    0 <= p.row < 3 && 0 <= p.col < 3
  }

  function Index(p: Pos): CellIndex
    requires OnBoard(p)
  {
    3 * p.row + p.col
  }

  const EMPTY_BOARD: Board := [Empty, Empty, Empty, Empty, Empty, Empty, Empty, Empty, Empty]

  /** One snapshot of the game; a move builds a new one. */
  datatype State = State(board: Board, currentPlayer: Player, gameType: GameType, difficulty: Difficulty)

  /**
   * `GameState(gameType = ..., difficulty = ...)`: every field left out
   * takes its default, so the board is empty and X moves first.
   */
  function NewGame(gameType: GameType := TwoPlayer, difficulty: Difficulty := Medium): (s: State)
    ensures forall k :: 0 <= k < 9 ==> s.board[k] == Empty
    ensures s.currentPlayer == X && s.gameType == gameType && s.difficulty == difficulty
    ensures CheckWinner(s.board) == None
  {
    assert forall k :: 0 <= k < 9 ==> EMPTY_BOARD[k] == Empty;
    assert EMPTY_BOARD[0] == Empty;
    assert NoLine(EMPTY_BOARD) && !Full(EMPTY_BOARD);
    State(EMPTY_BOARD, X, gameType, difficulty)
  }

  /** The eight lines in the order they are examined: rows, columns, diagonals. */
  const LINES: seq<(CellIndex, CellIndex, CellIndex)> := [
    (0, 1, 2), (3, 4, 5), (6, 7, 8),
    (0, 3, 6), (1, 4, 7), (2, 5, 8),
    (0, 4, 8), (2, 4, 6)
  ]

  /** Line `k` holds three marks `p`. */
  predicate Filled(b: Board, k: nat, p: Player)
    requires k < |LINES|
  {
    var (x, y, z) := LINES[k];
    b[x] == p && b[y] == p && b[z] == p
  }

  /** Line `k` is complete for one of the players. */
  predicate Decided(b: Board, k: nat)
    requires k < |LINES|
  {
    Filled(b, k, X) || Filled(b, k, O)
  }

  /** The first complete line, in examination order, belongs to `p`. */
  predicate WinsFirst(b: Board, p: Player) {
    exists k :: 0 <= k < |LINES| && Filled(b, k, p) && forall j :: 0 <= j < k ==> !Decided(b, j)
  }

  predicate NoLine(b: Board) {
    forall k :: 0 <= k < |LINES| ==> !Decided(b, k)
  }

  predicate Full(b: Board) {
    forall k :: 0 <= k < 9 ==> b[k] != Empty
  }

  datatype Outcome = Won(winner: Player) | Draw

  /**
   * The `for (line in lines)` search of checkWinner from line `i` on: X is
   * tested before O on each line, and the first complete line decides.
   */
  function ScanLines(b: Board, i: nat): (r: Option<Player>)
    requires i <= |LINES|
    ensures r.Some? ==>
      exists k :: i <= k < |LINES| && Filled(b, k, r.value) && forall j :: i <= j < k ==> !Decided(b, j)
    ensures r.None? ==> forall k :: i <= k < |LINES| ==> !Decided(b, k)
    decreases |LINES| - i
  {
    if i == |LINES| then None
    else if Filled(b, i, X) then Some(X)
    else if Filled(b, i, O) then Some(O)
    else ScanLines(b, i + 1)
  }

  /**
   * checkWinner: the owner of the first complete line; otherwise Draw on a
   * full board and None (Kotlin's null) while a cell is still empty.
   * It reads the board only, so turn, mode and difficulty have no effect.
   */
  function CheckWinner(b: Board): (r: Option<Outcome>)
    ensures r == Some(Won(X)) <==> WinsFirst(b, X)
    ensures r == Some(Won(O)) <==> WinsFirst(b, O)
    ensures r == Some(Draw) <==> NoLine(b) && Full(b)
    ensures r == None <==> NoLine(b) && !Full(b)
  {
    var w := ScanLines(b, 0);
    if w.Some? then
      assert !NoLine(b) by {
        var k :| 0 <= k < |LINES| && Filled(b, k, w.value) && forall j :: 0 <= j < k ==> !Decided(b, j);
        assert Decided(b, k);
      }
      assert forall q: Player :: WinsFirst(b, q) ==> q == w.value by {
        forall q: Player | WinsFirst(b, q) ensures q == w.value {
          FirstLineHasOneOwner(b, q, w.value);
        }
      }
      Some(Won(w.value))
    else if Full(b) then
      Some(Draw)
    else
      None
  }

  /** No two players can own the first complete line. */
  lemma FirstLineHasOneOwner(b: Board, p: Player, q: Player)
    requires WinsFirst(b, p) && WinsFirst(b, q)
    ensures p == q
  {
    var k :| 0 <= k < |LINES| && Filled(b, k, p) && forall j :: 0 <= j < k ==> !Decided(b, j);
    var k' :| 0 <= k' < |LINES| && Filled(b, k', q) && forall j :: 0 <= j < k' ==> !Decided(b, j);
    assert k == k' by {
      if k < k' { assert Decided(b, k); } else if k' < k { assert Decided(b, k'); }
    }
  }

  /** Number of cells of `b` holding `c`. */
  function Count(b: seq<Cell>, c: Cell): (n: nat)
    ensures n <= |b|
    ensures n == 0 <==> c !in b
  {
    if b == [] then 0 else (if b[0] == c then 1 else 0) + Count(b[1..], c)
  }

  function EmptyCount(b: Board): (n: nat)
    ensures n <= 9
    ensures n == 0 <==> Full(b)
  {
    Count(b, Empty)
  }

  /** Writing a mark into an empty cell moves one cell from Empty to that mark. */
  lemma {:induction false} CountPlace(b: seq<Cell>, k: nat, m: Cell, c: Cell)
    requires k < |b| && b[k] == Empty && m != Empty
    ensures Count(b[k := m], c) ==
      if c == m then Count(b, c) + 1 else if c == Empty then Count(b, c) - 1 else Count(b, c)
  {
    if k == 0 {
      assert b[k := m][1..] == b[1..];
    } else {
      assert b[k := m][1..] == b[1..][k - 1 := m];
      CountPlace(b[1..], k - 1, m, c);
    }
  }

  /** A complete line of `p` with no complete line before it decides the game for `p`. */
  lemma EarlierLineWins(b: Board, i: nat, p: Player)
    requires i < |LINES| && Filled(b, i, p)
    requires forall j :: 0 <= j < i ==> !Decided(b, j)
    ensures CheckWinner(b) == Some(Won(p))
  {
    assert WinsFirst(b, p);
  }

  /** On a full board the result is Draw exactly when no line is complete, and a win otherwise. */
  lemma FullBoards(b: Board)
    requires Full(b)
    ensures CheckWinner(b) == Some(Draw) <==> NoLine(b)
    ensures !NoLine(b) ==> CheckWinner(b).Some? && CheckWinner(b).value.Won?
  {
  }

  /** Example boards with an X row and an O row: the earlier row decides. */
  lemma ExampleRowBoards()
    ensures CheckWinner([X, X, X, O, O, O, Empty, Empty, Empty]) == Some(Won(X))
    ensures CheckWinner([O, O, O, X, X, X, Empty, Empty, Empty]) == Some(Won(O))
  {
  }

  /** Example full boards: without a line it is a draw, with a line a win. */
  lemma ExampleFullBoards()
    ensures CheckWinner([X, O, X, X, O, O, O, X, X]) == Some(Draw)
    ensures CheckWinner([X, O, X, O, X, O, O, X, X]) == Some(Won(X))
  {
  }
}
