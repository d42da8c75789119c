/** One round of play: the board, whose turn it is, and the recorded
    result, updated by clicks, by the computer's move and by a reset. */
module GameComponent {
  import opened GameLogic

  /** The game mode passed in by the application. */
  datatype Mode = Singleplayer | Multiplayer

  /** The `winner` state of a round: nothing yet, a player's mark, or a
      draw. */
  datatype Outcome = Undecided | Won(player: Player) | Draw

  /** The opponent of `p`. */
  function Other(p: Player): Player {
    if p == X then O else X
  }

  /** Nine empty cells. */
  const EmptyBoard: Board := [Empty, Empty, Empty, Empty, Empty, Empty, Empty, Empty, Empty]

  /** The judgement checkGameState makes of a board when no result has
      been recorded yet: a winner first, otherwise a draw on a full board,
      otherwise the round goes on. */
  function Classify(b: Board): Outcome {
    match Winner(b)
    case Some(p) => Won(p)
    case None => if IsBoardFull(b) then Draw else Undecided
  }

  /** The result is exactly one of: a win for `p`, when `p` completes the
      first uniform line; a draw, on a full board without a uniform line;
      undecided, on a board with an empty cell and without a uniform line. */
  lemma ClassifyPartition(b: Board)
    ensures forall p :: Classify(b) == Won(p) <==> exists j :: FirstUniformFrom(b, 0, j, p)
    ensures Classify(b) == Draw <==>
      IsBoardFull(b) && forall j :: 0 <= j < |WinningCombinations| ==> !Uniform(b, WinningCombinations[j])
    ensures Classify(b) == Undecided <==>
      EmptyCells(b) != [] && forall j :: 0 <= j < |WinningCombinations| ==> !Uniform(b, WinningCombinations[j])
  {
    WinnerNoneIff(b);
    FullIffNoEmptyCells(b);
    forall p ensures Classify(b) == Won(p) <==> exists j :: FirstUniformFrom(b, 0, j, p) {
      WinnerIsFirstUniformLine(b, p);
    }
  }

  /** Every uniformly marked line of the board belongs to the same player. */
  predicate OneOwner(b: Board) {
    forall j, k, p, q ::
      (0 <= j < |WinningCombinations| && 0 <= k < |WinningCombinations|
       && Completes(b, WinningCombinations[j], p) && Completes(b, WinningCombinations[k], q)) ==> p == q
  }

  /** Every uniformly marked line of the board belongs to `p`. */
  predicate OnlyOwner(b: Board, p: Player) {
    forall j, q :: 0 <= j < |WinningCombinations| && Completes(b, WinningCombinations[j], q) ==> q == p
  }

  /** Marking an empty cell of a board with no uniform line can only
      complete lines of the player who moved. */
  lemma PlaceCompletesOnlyMover(b: Board, i: Index, p: Player)
    requires b[i] == Empty && Winner(b) == None
    ensures OnlyOwner(b[i := Mark(p)], p)
    ensures OneOwner(b[i := Mark(p)])
  {
    WinnerNoneIff(b);
  }

  /** On a board where every uniform line has one owner, the scan's
      table order does not matter: any completed line names the winner. */
  lemma OneOwnerWinner(b: Board, j: nat, p: Player)
    requires OneOwner(b)
    requires j < |WinningCombinations| && Completes(b, WinningCombinations[j], p)
    ensures Winner(b) == Some(p)
  {
    WinnerComplete(b, j, p);
  }

  /** An undecided board still has a cell for the computer to take. */
  lemma UndecidedHasEmptyCell(b: Board, num: nat, den: nat)
    requires num < den && Classify(b) == Undecided
    ensures EmptyCells(b) != []
    ensures ComputerMove(b, num, den).Some?
  {
    FullIffNoEmptyCells(b);
  }

  /** A board with no mark of `p` has a count of zero for `p`. */
  lemma {:induction false} CountAbsent(b: seq<Cell>, p: Player)
    requires forall i :: 0 <= i < |b| ==> b[i] != Mark(p)
    ensures Count(b, p) == 0
    decreases |b|
  {
    if b != [] {
      CountAbsent(b[1..], p);
    }
  }

  class Game {
    const gameMode: Mode
    var board: Board
    var currentPlayer: Player
    var winner: Outcome

    /** The round's invariant: X moves first and the players alternate,
        the recorded result is the one the board shows, the lines of the
        board are never won by both players, and after a win it is the
        loser's turn. */
    ghost predicate Valid()
      reads this
    {
      && Count(board, X) == Count(board, O) + (if currentPlayer == X then 0 else 1)
      && winner == Classify(board)
      && OneOwner(board)
      && (winner.Won? ==> currentPlayer == Other(winner.player))
    }

    /** The initial state: nine empty cells, X to move, no result. */
    constructor (gameMode: Mode)
      ensures Valid()
      ensures this.gameMode == gameMode
      ensures board == EmptyBoard && currentPlayer == X && winner == Undecided
    {
      this.gameMode := gameMode;
      board := EmptyBoard;
      currentPlayer := X;
      winner := Undecided;
      new;
      EmptyBoardIsFresh();
    }

    /** The empty board has no marks, no winner and free cells. */
    static lemma EmptyBoardIsFresh()
      ensures Count(EmptyBoard, X) == 0 && Count(EmptyBoard, O) == 0
      ensures Classify(EmptyBoard) == Undecided && OneOwner(EmptyBoard)
    {
      CountAbsent(EmptyBoard, X);
      CountAbsent(EmptyBoard, O);
      WinnerNoneIff(EmptyBoard);
      assert !IsBoardFull(EmptyBoard) by {
        assert EmptyBoard[0] == Empty;
      }
    }

    /** checkGameState: record a win, or else a draw on a full board, and
        report it (the call of onGameEnd); otherwise change nothing. */
    method CheckGameState(currentBoard: Board) returns (reported: Option<Outcome>)
      modifies this`winner
      ensures match Winner(currentBoard)
        case Some(p) => winner == Won(p) && reported == Some(Won(p))
        case None =>
          if IsBoardFull(currentBoard) then winner == Draw && reported == Some(Draw)
          else winner == old(winner) && reported == None
    {
      var gameWinner := CheckWinner(currentBoard);
      if gameWinner.Some? {
        winner := Won(gameWinner.value);
        reported := Some(Won(gameWinner.value));
      } else if IsBoardFull(currentBoard) {
        winner := Draw;
        reported := Some(Draw);
      } else {
        reported := None;
      }
    }

    /** handleCellClick: ignored on an occupied cell or a decided round;
        otherwise the current player's mark goes into that one cell, the
        result is checked and the turn passes to the other player. */
    method HandleCellClick(index: Index) returns (reported: Option<Outcome>)
      requires Valid()
      modifies this
      ensures Valid()
      ensures old(board[index]) != Empty || old(winner) != Undecided ==>
        board == old(board) && currentPlayer == old(currentPlayer) && winner == old(winner)
        && reported == None
      ensures old(board[index]) == Empty && old(winner) == Undecided ==>
        board == old(board)[index := Mark(old(currentPlayer))]
        && currentPlayer == Other(old(currentPlayer))
        && winner == Classify(board)
        && reported == (if winner == Undecided then None else Some(winner))
    {
      if board[index] != Empty || winner != Undecided {
        return None;
      }
      var newBoard := board[index := Mark(currentPlayer)];
      CountAfterPlace(board, index, currentPlayer, X);
      CountAfterPlace(board, index, currentPlayer, O);
      PlaceCompletesOnlyMover(board, index, currentPlayer);
      board := newBoard;
      reported := CheckGameState(newBoard);
      currentPlayer := if currentPlayer == X then O else X;
      PlacedWinnerIsMover(newBoard, index, old(currentPlayer));
    }

    /** A win recorded right after a move on an undecided board is the
        mover's. */
    static lemma PlacedWinnerIsMover(b: Board, i: Index, p: Player)
      requires b[i] == Mark(p)
      requires OnlyOwner(b, p)
      ensures Classify(b).Won? ==> Classify(b).player == p
    {
      if Classify(b).Won? {
        WinnerIsFirstUniformLine(b, Classify(b).player);
      }
    }

    /** makeComputerMove, run on the computer's turn of an undecided round:
        `O` goes into exactly the cell getComputerMove picks for the draw
        `num / den`, the result is checked and X is to move. */
    method MakeComputerMove(num: nat, den: nat) returns (reported: Option<Outcome>)
      requires Valid() && currentPlayer == O && winner == Undecided && num < den
      modifies this
      ensures Valid()
      ensures ComputerMove(old(board), num, den).Some?
      ensures board == old(board)[ComputerMove(old(board), num, den).value := Mark(O)]
      ensures currentPlayer == X
      ensures winner == Classify(board)
      ensures reported == (if winner == Undecided then None else Some(winner))
    {
      UndecidedHasEmptyCell(board, num, den);
      var computerMove := GetComputerMove(board, num, den);
      var i: Index := computerMove.value;
      var newBoard := board[i := Mark(O)];
      CountAfterPlace(board, i, O, X);
      CountAfterPlace(board, i, O, O);
      PlaceCompletesOnlyMover(board, i, O);
      board := newBoard;
      reported := CheckGameState(newBoard);
      currentPlayer := X;
      PlacedWinnerIsMover(newBoard, i, O);
    }

    /** The effect that triggers the computer: only in single-player mode,
        on O's turn, while the round is undecided. */
    method ComputerTurn(num: nat, den: nat) returns (moved: bool, reported: Option<Outcome>)
      requires Valid() && num < den
      modifies this
      ensures Valid()
      ensures moved == (gameMode == Singleplayer && old(currentPlayer) == O && old(winner) == Undecided)
      ensures !moved ==>
        board == old(board) && currentPlayer == old(currentPlayer) && winner == old(winner)
        && reported == None
      ensures moved ==>
        && ComputerMove(old(board), num, den).Some?
        && board == old(board)[ComputerMove(old(board), num, den).value := Mark(O)]
        && currentPlayer == X
        && winner == Classify(board)
        && reported == (if winner == Undecided then None else Some(winner))
    {
      moved := gameMode == Singleplayer && currentPlayer == O && winner == Undecided;
      if moved {
        reported := MakeComputerMove(num, den);
      } else {
        reported := None;
      }
    }

    /** resetGame: back to the initial state. */
    method ResetGame()
      modifies this
      ensures Valid()
      ensures board == EmptyBoard && currentPlayer == X && winner == Undecided
    {
      board := EmptyBoard;
      currentPlayer := X;
      winner := Undecided;
      EmptyBoardIsFresh();
    }
  }
}
