/** The match around the rounds: the configured number of rounds, the
    round counter, the three score counters and the screen shown. */
module AppComponent {
  import opened GameLogic
  import opened GameComponent

  /** The screen the application shows. */
  datatype GameState = Setup | Playing | Ended

  /** The score counters of a match. */
  datatype Scores = Scores(x: nat, o: nat, draw: nat)

  /** The verdict on the final screen. */
  datatype Verdict = XWins | OWins | Tie

  const ZeroScores: Scores := Scores(0, 0, 0)

  /** The number of rounds counted so far. */
  function Total(s: Scores): nat {
    s.x + s.o + s.draw
  }

  /** The score update of handleGameEnd: the counter named by the winner
      goes up by one, and a draw or no winner at all counts as a draw. */
  function Credit(s: Scores, w: Outcome): (r: Scores)
    ensures Total(r) == Total(s) + 1
    ensures r.x == s.x + 1 <==> w == Won(X)
    ensures r.o == s.o + 1 <==> w == Won(O)
    ensures r.draw == s.draw + 1 <==> !w.Won?
    ensures r.x >= s.x && r.o >= s.o && r.draw >= s.draw
  {
    match w
    case Won(X) => s.(x := s.x + 1)
    case Won(O) => s.(o := s.o + 1)
    case _ => s.(draw := s.draw + 1)
  }

  /** The final verdict compares the X and O counters; draws do not count. */
  function FinalVerdict(s: Scores): (v: Verdict)
    ensures v == XWins <==> s.x > s.o
    ensures v == OWins <==> s.o > s.x
    ensures v == Tie <==> s.x == s.o
  {
    if s.x > s.o then XWins
    else if s.o > s.x then OWins
    else Tie
  }

  /** The number of rounds a match really lasts: a rounds setting below 1
      still plays one round. */
  function MatchLength(rounds: int): (n: int)
    ensures n >= 1 && n >= rounds
    ensures rounds >= 1 ==> n == rounds
    ensures rounds < 1 ==> n == 1
  {
    if rounds >= 1 then rounds else 1
  }

  /** The start button's guard: an X name, and an O name unless the
      computer plays O. */
  function CanStart(mode: Mode, playerXName: string, playerOName: string): (ok: bool)
    ensures ok ==> playerXName != []
    ensures ok ==> mode == Singleplayer || playerOName != []
    ensures !ok ==> playerXName == [] || (mode == Multiplayer && playerOName == [])
  {
    playerXName != "" && (mode == Singleplayer || playerOName != "")
  }

  class App {
    var gameMode: Option<Mode>
    var rounds: int
    var currentRound: int
    var scores: Scores
    var gameState: GameState
    var playerXName: string
    var playerOName: string
    /** The number of rounds ended since the match started. */
    ghost var roundsEnded: nat

    /** The match invariant: every ended round is counted once, the round
        counter stays within the match, and a match ends after exactly
        `MatchLength(rounds)` rounds. */
    ghost predicate Valid()
      reads this
    {
      && scores.x + scores.o + scores.draw == roundsEnded
      && 1 <= currentRound <= MatchLength(rounds)
      && (gameState == Setup ==> roundsEnded == 0 && currentRound == 1)
      && (gameState == Playing ==> roundsEnded == currentRound - 1)
      && (gameState == Ended ==> roundsEnded == currentRound == MatchLength(rounds))
    }

    /** The initial state: no mode, three rounds, round 1, no scores, the
        setup screen and empty names. */
    constructor ()
      ensures Valid()
      ensures gameMode == None && rounds == 3 && currentRound == 1 && scores == ZeroScores
      ensures gameState == Setup && playerXName == "" && playerOName == ""
    {
      gameMode := None;
      rounds := 3;
      currentRound := 1;
      scores := ZeroScores;
      gameState := Setup;
      playerXName := "";
      playerOName := "";
      roundsEnded := 0;
    }

    /** handleGameEnd, the round's onGameEnd callback: credit the winner,
        then go to the next round or end the match. */
    method HandleGameEnd(winner: Outcome)
      requires Valid() && gameState == Playing
      modifies this
      ensures Valid()
      ensures scores == Credit(old(scores), winner)
      ensures roundsEnded == old(roundsEnded) + 1
      ensures old(currentRound) < rounds ==>
        currentRound == old(currentRound) + 1 && gameState == old(gameState)
      ensures old(currentRound) >= rounds ==>
        currentRound == old(currentRound) && gameState == Ended
      ensures gameMode == old(gameMode) && rounds == old(rounds)
      ensures playerXName == old(playerXName) && playerOName == old(playerOName)
    {
      scores := Credit(scores, winner);
      roundsEnded := roundsEnded + 1;
      if currentRound < rounds {
        currentRound := currentRound + 1;
      } else {
        gameState := Ended;
      }
    }

    /** startNewGame: zero the scores, go to round 1 and show the board. */
    method StartNewGame()
      modifies this
      ensures Valid()
      ensures scores == ZeroScores && currentRound == 1 && gameState == Playing
      ensures roundsEnded == 0
      ensures gameMode == old(gameMode) && rounds == old(rounds)
      ensures playerXName == old(playerXName) && playerOName == old(playerOName)
    {
      scores := ZeroScores;
      currentRound := 1;
      gameState := Playing;
      roundsEnded := 0;
    }

    /** The start button, shown once a mode is chosen: start a new match
        when the names are present, and otherwise change nothing. Any state
        may precede it (a finished match whose rounds setting was changed
        since, say); a started match satisfies the invariant. */
    method StartGame() returns (started: bool)
      requires gameMode.Some?
      modifies this
      ensures started ==> Valid()
      ensures old(Valid()) ==> Valid()
      ensures started == CanStart(old(gameMode).value, old(playerXName), old(playerOName))
      ensures started ==>
        scores == ZeroScores && currentRound == 1 && gameState == Playing && roundsEnded == 0
      ensures !started ==>
        scores == old(scores) && currentRound == old(currentRound) && gameState == old(gameState)
        && roundsEnded == old(roundsEnded)
      ensures gameMode == old(gameMode) && rounds == old(rounds)
      ensures playerXName == old(playerXName) && playerOName == old(playerOName)
    {
      if CanStart(gameMode.value, playerXName, playerOName) {
        StartNewGame();
        started := true;
      } else {
        started := false;
      }
    }

    /** A click on the board of the round in play (the Game component's
        handleCellClick), with the round's result, when there is one,
        handed to handleGameEnd through onGameEnd. */
    method PlayCell(game: Game, index: Index) returns (reported: Option<Outcome>)
      requires Valid() && game.Valid() && gameState == Playing
      modifies this, game
      ensures Valid() && game.Valid()
      ensures old(game.board[index]) != Empty || old(game.winner) != Undecided ==>
        game.board == old(game.board) && game.winner == old(game.winner) && reported == None
      ensures old(game.board[index]) == Empty && old(game.winner) == Undecided ==>
        game.board == old(game.board)[index := Mark(old(game.currentPlayer))]
        && game.currentPlayer == Other(old(game.currentPlayer))
        && game.winner == Classify(game.board)
        && reported == (if game.winner == Undecided then None else Some(game.winner))
      ensures reported == None ==>
        scores == old(scores) && currentRound == old(currentRound) && gameState == old(gameState)
      ensures reported.Some? ==>
        scores == Credit(old(scores), reported.value)
        && currentRound == (if old(currentRound) < rounds then old(currentRound) + 1 else old(currentRound))
        && gameState == (if old(currentRound) < rounds then Playing else Ended)
      ensures gameMode == old(gameMode) && rounds == old(rounds)
      ensures playerXName == old(playerXName) && playerOName == old(playerOName)
    {
      reported := game.HandleCellClick(index);
      if reported.Some? {
        HandleGameEnd(reported.value);
      }
    }

    /** The computer's turn in the round in play, with the round's result,
        when there is one, handed to handleGameEnd through onGameEnd. */
    method PlayComputer(game: Game, num: nat, den: nat) returns (reported: Option<Outcome>)
      requires Valid() && game.Valid() && gameState == Playing && num < den
      modifies this, game
      ensures Valid() && game.Valid()
      ensures !(game.gameMode == Singleplayer && old(game.currentPlayer) == O && old(game.winner) == Undecided) ==>
        game.board == old(game.board) && game.winner == old(game.winner) && reported == None
      ensures game.gameMode == Singleplayer && old(game.currentPlayer) == O && old(game.winner) == Undecided ==>
        && ComputerMove(old(game.board), num, den).Some?
        && game.board == old(game.board)[ComputerMove(old(game.board), num, den).value := Mark(O)]
        && game.currentPlayer == X
        && game.winner == Classify(game.board)
        && reported == (if game.winner == Undecided then None else Some(game.winner))
      ensures reported == None ==>
        scores == old(scores) && currentRound == old(currentRound) && gameState == old(gameState)
      ensures reported.Some? ==>
        scores == Credit(old(scores), reported.value)
        && currentRound == (if old(currentRound) < rounds then old(currentRound) + 1 else old(currentRound))
        && gameState == (if old(currentRound) < rounds then Playing else Ended)
      ensures gameMode == old(gameMode) && rounds == old(rounds)
      ensures playerXName == old(playerXName) && playerOName == old(playerOName)
    {
      var moved;
      moved, reported := game.ComputerTurn(num, den);
      if reported.Some? {
        HandleGameEnd(reported.value);
      }
    }
  }
}
