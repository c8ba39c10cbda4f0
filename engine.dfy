/**
 * The computer opponent (MainActivity.kt, "AI Logic"): three ways to choose
 * O's move and the copy-on-write update that applies it. O is always the
 * maximizing player of the search.
 */
module Engine {
  import opened Wrappers
  import opened GameMode
  import opened GameState

  /** Kotlin's Int.MIN_VALUE and Int.MAX_VALUE, the seeds of the search. */
  const INT_MIN: int := -0x8000_0000
  const INT_MAX: int := 0x7fff_ffff

  /** The mark placed by the simulated mover: O when maximizing, X when minimizing. */
  function Mover(maximizing: bool): Player {
    if maximizing then O else X
  }

  function Seed(maximizing: bool): int {
    if maximizing then INT_MIN else INT_MAX
  }

  /** The score of a decided board reached after `depth` simulated plies. */
  function TerminalScore(o: Outcome, depth: int): (r: int)
    ensures o == Won(O) ==> r > 0 || depth >= 10
    ensures o == Won(X) ==> r < 0 || depth >= 10
    ensures o == Draw ==> r == 0
  {
    match o
    case Won(p) => if p == O then 10 - depth else -10 + depth
    case Draw => 0
  }

  /**
   * The value minimax computes: the terminal score of a decided board,
   * otherwise the running maximum (or minimum) over all empty cells,
   * examined in row-major order from the Int.MIN_VALUE (or Int.MAX_VALUE) seed.
   */
  function Score(b: Board, depth: int, maximizing: bool): int
    decreases EmptyCount(b), 2, 0
  {
    match CheckWinner(b)
    case Some(o) => TerminalScore(o, depth)
    case None => Fold(b, depth, maximizing, 9)
  }

  /** The accumulator `best` after the first `n` cells have been examined. */
  function Fold(b: Board, depth: int, maximizing: bool, n: nat): int
    requires n <= 9
    decreases EmptyCount(b), 1, n
  {
    if n == 0 then Seed(maximizing)
    else if b[n - 1] != Empty then Fold(b, depth, maximizing, n - 1)
    else if maximizing then Max(Fold(b, depth, maximizing, n - 1), ChildScore(b, depth, maximizing, n - 1))
    else Min(Fold(b, depth, maximizing, n - 1), ChildScore(b, depth, maximizing, n - 1))
  }

  /** The score of the board with the simulated mover's mark in empty cell `k`. */
  function ChildScore(b: Board, depth: int, maximizing: bool, k: CellIndex): int
    requires b[k] == Empty
    decreases EmptyCount(b), 0, 0
  {
    CountPlace(b, k, Mover(maximizing), Empty);
    Score(b[k := Mover(maximizing)], depth + 1, !maximizing)
  }

  /** The score findBestMove compares for cell `k`: `minimax(child, 0, false)`. */
  function RootScore(b: Board, k: CellIndex): int
    requires b[k] == Empty
  {
    Score(b[k := O], 0, false)
  }

  function Max(a: int, b: int): int { if a >= b then a else b }

  function Min(a: int, b: int): int { if a <= b then a else b }

  /**
   * After `n` cells the accumulator bounds every child seen so far and is
   * either the seed or the score of one of those children.
   */
  lemma {:induction false} FoldIsExtremum(b: Board, depth: int, maximizing: bool, n: nat)
    requires n <= 9
    ensures forall k :: 0 <= k < n && b[k] == Empty ==>
      if maximizing then ChildScore(b, depth, maximizing, k) <= Fold(b, depth, maximizing, n)
      else ChildScore(b, depth, maximizing, k) >= Fold(b, depth, maximizing, n)
    ensures Fold(b, depth, maximizing, n) == Seed(maximizing) ||
      exists k :: 0 <= k < n && b[k] == Empty && Fold(b, depth, maximizing, n) == ChildScore(b, depth, maximizing, k)
  {
    if n > 0 {
      FoldIsExtremum(b, depth, maximizing, n - 1);
    }
  }

  /**
   * With `depth` plies already simulated and at most 9 - depth cells left,
   * every score lies in [depth - 10, 10 - depth]; in particular it is never
   * one of the seeds.
   */
  lemma {:induction false} ScoreRange(b: Board, depth: int, maximizing: bool)
    requires 0 <= depth && depth + EmptyCount(b) <= 9
    ensures depth - 10 <= Score(b, depth, maximizing) <= 10 - depth
    decreases EmptyCount(b)
  {
    if CheckWinner(b).None? {
      forall k | 0 <= k < 9 && b[k] == Empty
        ensures depth + 1 - 10 <= ChildScore(b, depth, maximizing, k) <= 10 - (depth + 1)
      {
        CountPlace(b, k, Mover(maximizing), Empty);
        ScoreRange(b[k := Mover(maximizing)], depth + 1, !maximizing);
      }
      FoldIsExtremum(b, depth, maximizing, 9);
      var k :| 0 <= k < 9 && b[k] == Empty;
      assert depth + 1 - 10 <= ChildScore(b, depth, maximizing, k) <= 10 - (depth + 1);
    }
  }

  /**
   * On an undecided board minimax is the maximum (maximizing) or minimum
   * (minimizing) of the scores of its children, attained by one of them,
   * and never a seed.
   */
  lemma ScoreIsBestChild(b: Board, depth: int, maximizing: bool)
    requires CheckWinner(b) == None
    requires 0 <= depth && depth + EmptyCount(b) <= 9
    ensures Score(b, depth, maximizing) != INT_MIN && Score(b, depth, maximizing) != INT_MAX
    ensures exists k :: 0 <= k < 9 && b[k] == Empty && Score(b, depth, maximizing) == ChildScore(b, depth, maximizing, k)
    ensures forall k :: 0 <= k < 9 && b[k] == Empty ==>
      if maximizing then ChildScore(b, depth, maximizing, k) <= Score(b, depth, maximizing)
      else ChildScore(b, depth, maximizing, k) >= Score(b, depth, maximizing)
  {
    ScoreRange(b, depth, maximizing);
    FoldIsExtremum(b, depth, maximizing, 9);
  }

  /** A child of the root scores 10 exactly when O's mark there wins at once. */
  lemma RootScoreTen(b: Board, k: CellIndex)
    requires b[k] == Empty
    ensures RootScore(b, k) == 10 <==> CheckWinner(b[k := O]) == Some(Won(O))
  {
    var c := b[k := O];
    CountPlace(b, k, O, Empty);
    if CheckWinner(c).None? {
      var j :| 0 <= j < 9 && c[j] == Empty;
      ScoreIsBestChild(c, 0, false);
      CountPlace(c, j, X, Empty);
      ScoreRange(c[j := X], 1, true);
      assert ChildScore(c, 0, false, j) <= 9;
    }
  }

  /** The score findBestMove compares at each cell; a filled cell is skipped, so 0 stands there. */
  function RootScores(b: Board): (sc: seq<int>)
    ensures |sc| == 9
    ensures forall k :: 0 <= k < 9 && b[k] == Empty ==> sc[k] == RootScore(b, k)
  {
    seq(9, k => if 0 <= k < 9 && b[k] == Empty then RootScore(b, k) else 0)
  }

  /**
   * Cell `k` is the best of the first `n` cells when ranked by `sc`:
   * maximal score, and strictly better than every earlier empty cell.
   */
  predicate IsBestAmong(b: Board, sc: seq<int>, n: nat, k: CellIndex)
    requires n <= 9 && |sc| == 9
  {
    k < n && b[k] == Empty &&
    (forall j :: 0 <= j < n && b[j] == Empty ==> sc[j] <= sc[k]) &&
    (forall j :: 0 <= j < k && b[j] == Empty ==> sc[j] < sc[k])
  }

  /** A move after which X can win at once scores -9: X's best reply ends the game at depth 1. */
  lemma {:induction false} RootScoreLosing(b: Board, k: CellIndex, w: CellIndex)
    requires b[k] == Empty && CheckWinner(b[k := O]) == None
    requires b[k := O][w] == Empty && CheckWinner(b[k := O][w := X]) == Some(Won(X))
    ensures RootScore(b, k) == -9
  {
    var c := b[k := O];
    CountPlace(b, k, O, Empty);
    ScoreIsBestChild(c, 0, false);
    forall j | 0 <= j < 9 && c[j] == Empty
      ensures ChildScore(c, 0, false, j) >= -9
    {
      CountPlace(c, j, X, Empty);
      ScoreRange(c[j := X], 1, true);
    }
    assert ChildScore(c, 0, false, w) == -9;
  }

  /** The best move as findBestMove defines it: maximal score, earliest among equals. */
  predicate IsBestMove(b: Board, k: CellIndex) {
    IsBestAmong(b, RootScores(b), 9, k)
  }

  /** What findBestMove's `move` and `bestScore` hold once the first `n` cells are examined. */
  predicate BestSoFar(b: Board, sc: seq<int>, n: nat, move: Option<Pos>, bestScore: int)
    requires n <= 9 && |sc| == 9
  {
    (move.None? <==> forall k :: 0 <= k < n ==> b[k] != Empty) &&
    (move.None? ==> bestScore == INT_MIN) &&
    (move.Some? ==>
      OnBoard(move.value) && IsBestAmong(b, sc, n, Index(move.value)) &&
      bestScore == sc[Index(move.value)])
  }

  /**
   * One iteration of findBestMove's inner loop keeps BestSoFar: the strict
   * `>` against the Int.MIN_VALUE seed takes the first cell of maximal
   * score, provided no score is the seed itself.
   */
  lemma BestSoFarStep(b: Board, sc: seq<int>, n: nat, move: Option<Pos>, bestScore: int, p: Pos)
    requires n < 9 && |sc| == 9 && OnBoard(p) && Index(p) == n
    requires b[n] == Empty ==> sc[n] > INT_MIN
    requires BestSoFar(b, sc, n, move, bestScore)
    ensures b[n] != Empty ==> BestSoFar(b, sc, n + 1, move, bestScore)
    ensures b[n] == Empty && sc[n] > bestScore ==> BestSoFar(b, sc, n + 1, Some(p), sc[n])
    ensures b[n] == Empty && sc[n] <= bestScore ==> BestSoFar(b, sc, n + 1, move, bestScore)
  {
    if b[n] == Empty && sc[n] <= bestScore {
      assert move.Some?;
    }
  }

  /** When some move wins at once, the best move wins at once. */
  lemma HardTakesImmediateWin(b: Board, k: CellIndex, w: CellIndex)
    requires IsBestMove(b, k)
    requires b[w] == Empty && CheckWinner(b[w := O]) == Some(Won(O))
    ensures CheckWinner(b[k := O]) == Some(Won(O))
  {
    RootScoreTen(b, w);
    assert RootScore(b, w) <= RootScore(b, k);
    CountPlace(b, k, O, Empty);
    ScoreRange(b[k := O], 0, false);
    RootScoreTen(b, k);
  }

  /** X holds (1,1), (2,0), (2,1) and threatens (0,2) and (2,2); O holds (0,1), (1,2); O to move. */
  const DOUBLE_THREAT: Board := [Empty, O, Empty, Empty, X, O, X, X, Empty]

  /** On DOUBLE_THREAT every move of O leaves one of X's threats open, so it scores -9. */
  lemma DoubleThreatMoveLoses(k: CellIndex)
    requires DOUBLE_THREAT[k] == Empty
    ensures RootScore(DOUBLE_THREAT, k) == -9
  {
    if k == 0 { DoubleThreatMoveLosesAt0(); }
    else if k == 2 { DoubleThreatMoveLosesAt2(); }
    else if k == 3 { DoubleThreatMoveLosesAt3(); }
    else { DoubleThreatMoveLosesAt8(); }
  }

  /** O at (0,0) leaves X's threat at (0,2) open. */
  lemma DoubleThreatMoveLosesAt0()
    ensures RootScore(DOUBLE_THREAT, 0) == -9
  {
    var E := Empty;
    assert DOUBLE_THREAT[0 := O] == [O, O, E, E, X, O, X, X, E];
    assert !Full([O, O, E, E, X, O, X, X, E]) by { assert [O, O, E, E, X, O, X, X, E][2] == Empty; }
    assert NoLine([O, O, E, E, X, O, X, X, E]) by {
      forall i | 0 <= i < |LINES| ensures !Decided([O, O, E, E, X, O, X, X, E], i) { }
    }
    assert DOUBLE_THREAT[0 := O][2 := X] == [O, O, X, E, X, O, X, X, E];
    EarlierLineWins([O, O, X, E, X, O, X, X, E], 7, X);
    RootScoreLosing(DOUBLE_THREAT, 0, 2);
  }

  /** O at (0,2) leaves X's threat at (2,2) open. */
  lemma DoubleThreatMoveLosesAt2()
    ensures RootScore(DOUBLE_THREAT, 2) == -9
  {
    var E := Empty;
    assert DOUBLE_THREAT[2 := O] == [E, O, O, E, X, O, X, X, E];
    assert !Full([E, O, O, E, X, O, X, X, E]) by { assert [E, O, O, E, X, O, X, X, E][0] == Empty; }
    assert NoLine([E, O, O, E, X, O, X, X, E]) by {
      forall i | 0 <= i < |LINES| ensures !Decided([E, O, O, E, X, O, X, X, E], i) { }
    }
    assert DOUBLE_THREAT[2 := O][8 := X] == [E, O, O, E, X, O, X, X, X];
    EarlierLineWins([E, O, O, E, X, O, X, X, X], 2, X);
    RootScoreLosing(DOUBLE_THREAT, 2, 8);
  }

  /** O at (1,0) leaves X's threat at (2,2) open. */
  lemma DoubleThreatMoveLosesAt3()
    ensures RootScore(DOUBLE_THREAT, 3) == -9
  {
    var E := Empty;
    assert DOUBLE_THREAT[3 := O] == [E, O, E, O, X, O, X, X, E];
    assert !Full([E, O, E, O, X, O, X, X, E]) by { assert [E, O, E, O, X, O, X, X, E][2] == Empty; }
    assert NoLine([E, O, E, O, X, O, X, X, E]) by {
      forall i | 0 <= i < |LINES| ensures !Decided([E, O, E, O, X, O, X, X, E], i) { }
    }
    assert DOUBLE_THREAT[3 := O][8 := X] == [E, O, E, O, X, O, X, X, X];
    EarlierLineWins([E, O, E, O, X, O, X, X, X], 2, X);
    RootScoreLosing(DOUBLE_THREAT, 3, 8);
  }

  /** O at (2,2) leaves X's threat at (0,2) open. */
  lemma DoubleThreatMoveLosesAt8()
    ensures RootScore(DOUBLE_THREAT, 8) == -9
  {
    var E := Empty;
    assert DOUBLE_THREAT[8 := O] == [E, O, E, E, X, O, X, X, O];
    assert !Full([E, O, E, E, X, O, X, X, O]) by { assert [E, O, E, E, X, O, X, X, O][2] == Empty; }
    assert NoLine([E, O, E, E, X, O, X, X, O]) by {
      forall i | 0 <= i < |LINES| ensures !Decided([E, O, E, E, X, O, X, X, O], i) { }
    }
    assert DOUBLE_THREAT[8 := O][2 := X] == [E, O, X, E, X, O, X, X, O];
    EarlierLineWins([E, O, X, E, X, O, X, X, O], 7, X);
    RootScoreLosing(DOUBLE_THREAT, 8, 2);
  }

  /**
   * Facing two threats, Hard does not block: every move scores -9, and the
   * strict `>` keeps the first empty cell, (0,0), which blocks neither.
   */
  lemma DoubleThreatKeepsFirstCell()
    ensures IsBestMove(DOUBLE_THREAT, 0)
  {
    forall j | 0 <= j < 9 && DOUBLE_THREAT[j] == Empty
      ensures RootScores(DOUBLE_THREAT)[j] == -9
    {
      DoubleThreatMoveLoses(j);
    }
  }

  /** minimax, with the two nested-loop branches of the Kotlin code; equals Score. */
  method Minimax(b: Board, depth: int, maximizing: bool) returns (r: int)
    ensures r == Score(b, depth, maximizing)
    decreases EmptyCount(b)
  {
    var winner := CheckWinner(b);
    if winner.Some? {
      return TerminalScore(winner.value, depth);
    }
    if maximizing {
      var best := INT_MIN;
      for i := 0 to 3
        invariant best == Fold(b, depth, true, 3 * i)
      {
        for j := 0 to 3
          invariant best == Fold(b, depth, true, 3 * i + j)
        {
          if b[3 * i + j] == Empty {
            var newBoard := b[3 * i + j := O];
            CountPlace(b, 3 * i + j, O, Empty);
            var s := Minimax(newBoard, depth + 1, false);
            best := Max(best, s);
          }
        }
      }
      r := best;
    } else {
      var best := INT_MAX;
      for i := 0 to 3
        invariant best == Fold(b, depth, false, 3 * i)
      {
        for j := 0 to 3
          invariant best == Fold(b, depth, false, 3 * i + j)
        {
          if b[3 * i + j] == Empty {
            var newBoard := b[3 * i + j := X];
            CountPlace(b, 3 * i + j, X, Empty);
            var s := Minimax(newBoard, depth + 1, true);
            best := Min(best, s);
          }
        }
      }
      r := best;
    }
  }

  /** findBestMove: the first empty cell, in row-major order, of maximal score. */
  method FindBestMove(b: Board) returns (move: Option<Pos>)
    ensures move.None? <==> Full(b)
    ensures move.Some? ==> OnBoard(move.value) && IsBestMove(b, Index(move.value))
  {
    ghost var sc := RootScores(b);
    var bestScore := INT_MIN;
    move := None;
    for i := 0 to 3
      invariant BestSoFar(b, sc, 3 * i, move, bestScore)
    {
      for j := 0 to 3
        invariant BestSoFar(b, sc, 3 * i + j, move, bestScore)
      {
        if b[3 * i + j] == Empty {
          var newBoard := b[3 * i + j := O];
          CountPlace(b, 3 * i + j, O, Empty);
          ScoreRange(newBoard, 0, false);
          var score := Minimax(newBoard, 0, false);
          BestSoFarStep(b, sc, 3 * i + j, move, bestScore, Pos(i, j));
          if score > bestScore {
            bestScore := score;
            move := Some(Pos(i, j));
          }
        } else {
          BestSoFarStep(b, sc, 3 * i + j, move, bestScore, Pos(i, j));
        }
      }
    }
  }

  /** findFirstAvailableMove: the first empty cell in row-major order. */
  method FindFirstAvailableMove(b: Board) returns (move: Option<Pos>)
    ensures move.None? <==> Full(b)
    ensures move.Some? ==> OnBoard(move.value) && b[Index(move.value)] == Empty
    ensures move.Some? ==> forall k :: 0 <= k < Index(move.value) ==> b[k] != Empty
  {
    for i := 0 to 3
      invariant forall k :: 0 <= k < 3 * i ==> b[k] != Empty
    {
      for j := 0 to 3
        invariant forall k :: 0 <= k < 3 * i + j ==> b[k] != Empty
      {
        if b[3 * i + j] == Empty {
          return Some(Pos(i, j));
        }
      }
    }
    return None;
  }

  /**
   * findRandomMove: collects the empty cells in row-major order and picks
   * one of them; the library's random choice is an arbitrary choice here.
   */
  method FindRandomMove(b: Board) returns (move: Option<Pos>)
    ensures move.None? <==> Full(b)
    ensures move.Some? ==> OnBoard(move.value) && b[Index(move.value)] == Empty
  {
    var emptyCells: seq<Pos> := [];
    for i := 0 to 3
      invariant forall c :: c in emptyCells ==> OnBoard(c) && b[Index(c)] == Empty
      invariant emptyCells == [] <==> forall k :: 0 <= k < 3 * i ==> b[k] != Empty
    {
      for j := 0 to 3
        invariant forall c :: c in emptyCells ==> OnBoard(c) && b[Index(c)] == Empty
        invariant emptyCells == [] <==> forall k :: 0 <= k < 3 * i + j ==> b[k] != Empty
      {
        if b[3 * i + j] == Empty {
          emptyCells := emptyCells + [Pos(i, j)];
        }
      }
    }
    if emptyCells != [] {
      var n :| 0 <= n < |emptyCells|;
      move := Some(emptyCells[n]);
    } else {
      move := None;
    }
  }

  /**
   * makeAIMove: nothing happens once the game is decided or when it is not
   * O's turn; otherwise the strategy of the configured difficulty picks an
   * empty cell, O is written there and X moves next.
   */
  method MakeAIMove(s: State) returns (t: State)
    ensures CheckWinner(s.board) != None || s.currentPlayer != O ==> t == s
    ensures CheckWinner(s.board) == None && s.currentPlayer == O ==>
      t.currentPlayer == X && t.gameType == s.gameType && t.difficulty == s.difficulty &&
      exists k :: 0 <= k < 9 && s.board[k] == Empty && t.board == s.board[k := O] &&
        (s.difficulty == Easy ==> forall j :: 0 <= j < k ==> s.board[j] != Empty) &&
        (s.difficulty == Hard ==> IsBestMove(s.board, k))
  {
    if CheckWinner(s.board) != None || s.currentPlayer != O {
      return s;
    }
    var move: Option<Pos>;
    match s.difficulty {
      case Easy => move := FindFirstAvailableMove(s.board);
      case Medium => move := FindRandomMove(s.board);
      case Hard => move := FindBestMove(s.board);
    }
    if move.Some? {
      ghost var k := Index(move.value);
      var updatedBoard := s.board[Index(move.value) := O];
      t := s.(board := updatedBoard, currentPlayer := X);
      assert s.board[k] == Empty && t.board == s.board[k := O];
    } else {
      t := s;
    }
  }
}
