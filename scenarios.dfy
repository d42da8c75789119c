/** Concrete boards and a played round, checked against the model. */
module Scenarios {
  import opened GameLogic
  import opened GameComponent
  import opened AppComponent

  const TopRowX: Board := [Mark(X), Mark(X), Mark(X), Empty, Empty, Empty, Empty, Empty, Empty]

  const DrawnBoard: Board :=
    [Mark(X), Mark(O), Mark(X), Mark(O), Mark(X), Mark(O), Mark(O), Mark(X), Mark(O)]

  const OnlyFirstFree: Board :=
    [Empty, Mark(O), Mark(X), Mark(O), Mark(X), Mark(O), Mark(X), Mark(O), Mark(X)]

  /** Three X marks across the top row make X the winner. */
  lemma TopRowWinsForX()
    ensures Winner(TopRowX) == Some(X)
  {
    assert Completes(TopRowX, WinningCombinations[0], X);
    WinnerIsFirstUniformLine(TopRowX, X);
    assert FirstUniformFrom(TopRowX, 0, 0, X);
  }

  /** A full board without a uniform line has no winner and is a draw. */
  lemma FullBoardWithoutLineIsDraw()
    ensures Winner(DrawnBoard) == None && IsBoardFull(DrawnBoard)
    ensures Classify(DrawnBoard) == Draw
  {
    WinnerNoneIff(DrawnBoard);
  }

  /** With only cell 0 free, the computer takes cell 0 whatever the draw. */
  lemma SingleFreeCellIsTaken(num: nat, den: nat)
    requires num < den
    ensures ComputerMove(OnlyFirstFree, num, den) == Some(0)
  {
    ComputerMoveSingleEmpty(OnlyFirstFree, 0, num, den);
  }

  /** A board with a free cell and no uniform line is undecided. */
  lemma OpenBoard(b: Board)
    requires !IsBoardFull(b)
    requires !Uniform(b, Line(0, 1, 2)) && !Uniform(b, Line(3, 4, 5)) && !Uniform(b, Line(6, 7, 8))
    requires !Uniform(b, Line(0, 3, 6)) && !Uniform(b, Line(1, 4, 7)) && !Uniform(b, Line(2, 5, 8))
    requires !Uniform(b, Line(0, 4, 8)) && !Uniform(b, Line(2, 4, 6))
    ensures Classify(b) == Undecided
  {
    WinnerNoneIff(b);
  }

  /** A two-player round in which X takes the top row: the round reports
      the win once, and later clicks are ignored. */
  method TopRowRound() {
    var game := new Game(Multiplayer);
    var b: Board := EmptyBoard[0 := Mark(X)];
    var r := game.HandleCellClick(0);
    assert game.board == b;
    assert b[8] == Empty;
    OpenBoard(b);
    b := b[3 := Mark(O)];
    r := game.HandleCellClick(3);
    assert game.board == b;
    assert b[8] == Empty;
    OpenBoard(b);
    b := b[1 := Mark(X)];
    r := game.HandleCellClick(1);
    assert game.board == b;
    assert b[8] == Empty;
    OpenBoard(b);
    b := b[4 := Mark(O)];
    r := game.HandleCellClick(4);
    assert game.board == b;
    assert b[8] == Empty;
    OpenBoard(b);
    assert r == None && game.currentPlayer == X;
    b := b[2 := Mark(X)];
    r := game.HandleCellClick(2);
    assert game.board == b;
    assert WinningCombinations[0] == Line(0, 1, 2);
    assert Completes(b, Line(0, 1, 2), X);
    OneOwnerWinner(b, 0, X);
    assert r == Some(Won(X)) && game.currentPlayer == O;
    r := game.HandleCellClick(5);
    assert r == None && game.board == b;
  }

  /** A one-round match: starting needs the names, the round's result is
      credited once and ends the match, and the verdict follows the scores. */
  method OneRoundMatch() {
    var app := new App();
    app.gameMode := Some(Singleplayer);
    var started := app.StartGame();
    assert !started && app.gameState == Setup;
    app.playerXName, app.rounds := "Ada", 1;
    started := app.StartGame();
    assert started && app.gameState == Playing;
    app.HandleGameEnd(Won(O));
    assert app.gameState == Ended && app.currentRound == 1;
    assert FinalVerdict(app.scores) == OWins;
  }

  /** Whatever state the match was left in, for instance a finished match
      whose rounds setting was changed since, the start button with the
      names present starts a fresh match. */
  method RestartWithChangedRounds(app: App)
    requires app.gameMode == Some(Multiplayer) && app.playerXName == "Ada" && app.playerOName == "Bo"
    modifies app
  {
    app.rounds := 5;
    var started := app.StartGame();
    assert started && app.Valid() && app.scores == ZeroScores && app.currentRound == 1;
  }
}
