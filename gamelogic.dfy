/** The rules engine: win detection over the fixed table of eight lines,
    board-full detection, and the computer's random legal move. */
module GameLogic {

  datatype Option<T> = None | Some(value: T)

  /** A mark a player places. */
  datatype Player = X | O

  /** A cell of the board: empty (the source's `null`) or holding a mark. */
  datatype Cell = Empty | Mark(player: Player)

  /** A cell index, 0..8, row-major on the 3x3 grid. */
  type Index = i: int | 0 <= i < 9

  /** The board is always exactly nine cells long. */
  type Board = b: seq<Cell> | |b| == 9
    witness [Empty, Empty, Empty, Empty, Empty, Empty, Empty, Empty, Empty]

  /** A winning line: three cell indices. */
  datatype Line = Line(a: Index, b: Index, c: Index)

  /** The winning table in its declared order: three rows, three columns,
      then the two diagonals. */
  const WinningCombinations: seq<Line> := [
    Line(0, 1, 2),
    Line(3, 4, 5),
    Line(6, 7, 8),
    Line(0, 3, 6),
    Line(1, 4, 7),
    Line(2, 5, 8),
    Line(0, 4, 8),
    Line(2, 4, 6)
  ]

  /** All three cells of line `l` hold the mark of `p`. */
  predicate Completes(b: Board, l: Line, p: Player) {
    b[l.a] == Mark(p) && b[l.b] == Mark(p) && b[l.c] == Mark(p)
  }

  /** Line `l` is uniformly marked with some (non-empty) mark. */
  predicate Uniform(b: Board, l: Line) {
    b[l.a] != Empty && b[l.b] == b[l.a] && b[l.c] == b[l.a]
  }

  /** The test applied to one line by the scan: the first cell is occupied
      and the other two equal it; the result is that cell's mark. */
  function LineOwner(b: Board, l: Line): (r: Option<Player>)
    ensures forall p :: r == Some(p) <==> Completes(b, l, p)
    ensures r == None <==> !Uniform(b, l)
  {
    if b[l.a] != Empty && b[l.a] == b[l.b] && b[l.a] == b[l.c]
    then assert Completes(b, l, b[l.a].player); Some(b[l.a].player)
    else None
  }

  /** The scan of the table from line `k` on; the first line that has an
      owner decides. */
  function WinnerFrom(b: Board, k: nat): Option<Player>
    requires k <= |WinningCombinations|
    decreases |WinningCombinations| - k
  {
    if k == |WinningCombinations| then None
    else match LineOwner(b, WinningCombinations[k])
      case Some(p) => Some(p)
      case None => WinnerFrom(b, k + 1)
  }

  /** The winner of a board, `None` when no line is uniformly marked. */
  function Winner(b: Board): Option<Player> {
    WinnerFrom(b, 0)
  }

  /** checkWinner: the for-of loop over the table with an early return. */
  method CheckWinner(b: Board) returns (w: Option<Player>)
    ensures w == Winner(b)
  {
    var k := 0;
    while k < |WinningCombinations|
      invariant 0 <= k <= |WinningCombinations|
      invariant WinnerFrom(b, k) == Winner(b)
    {
      var combo := WinningCombinations[k];
      if b[combo.a] != Empty && b[combo.a] == b[combo.b] && b[combo.a] == b[combo.c] {
        return Some(b[combo.a].player);
      }
      k := k + 1;
    }
    return None;
  }

  /** Line `j` (at or after `k`) is completed by `p`, and no line from
      `k` up to `j` is uniformly marked. */
  predicate FirstUniformFrom(b: Board, k: nat, j: nat, p: Player) {
    k <= j < |WinningCombinations| && Completes(b, WinningCombinations[j], p)
    && forall i :: k <= i < j ==> !Uniform(b, WinningCombinations[i])
  }

  /** The scan from line `k` finds `p` exactly when `p` completes the first
      uniform line from `k` on; it finds nothing exactly when no line from
      `k` on is uniform. */
  lemma {:induction false} WinnerFromCharacterized(b: Board, k: nat)
    requires k <= |WinningCombinations|
    ensures forall p :: WinnerFrom(b, k) == Some(p) <==> exists j :: FirstUniformFrom(b, k, j, p)
    ensures WinnerFrom(b, k) == None <==>
      forall j :: k <= j < |WinningCombinations| ==> !Uniform(b, WinningCombinations[j])
    decreases |WinningCombinations| - k
  {
    if k < |WinningCombinations| {
      WinnerFromCharacterized(b, k + 1);
      var l := WinningCombinations[k];
      if LineOwner(b, l).None? {
        forall p | WinnerFrom(b, k) == Some(p)
          ensures exists j :: FirstUniformFrom(b, k, j, p)
        {
          var j :| FirstUniformFrom(b, k + 1, j, p);
          assert FirstUniformFrom(b, k, j, p);
        }
        forall p | exists j :: FirstUniformFrom(b, k, j, p)
          ensures WinnerFrom(b, k) == Some(p)
        {
          var j :| FirstUniformFrom(b, k, j, p);
          assert FirstUniformFrom(b, k + 1, j, p);
        }
      } else {
        forall p | WinnerFrom(b, k) == Some(p)
          ensures exists j :: FirstUniformFrom(b, k, j, p)
        {
          assert FirstUniformFrom(b, k, k, p);
        }
        forall p | exists j :: FirstUniformFrom(b, k, j, p)
          ensures WinnerFrom(b, k) == Some(p)
        {
          var j :| FirstUniformFrom(b, k, j, p);
          assert j == k;
        }
      }
    }
  }

  /** Soundness and order: the winner is the mark that completes the first
      uniform line of the table, even when several lines are uniform. */
  lemma WinnerIsFirstUniformLine(b: Board, p: Player)
    ensures Winner(b) == Some(p) <==> exists j :: FirstUniformFrom(b, 0, j, p)
  {
    WinnerFromCharacterized(b, 0);
  }

  /** No winner exactly when no line is uniformly marked, however full the
      board is. */
  lemma WinnerNoneIff(b: Board)
    ensures Winner(b) == None <==>
      forall j :: 0 <= j < |WinningCombinations| ==> !Uniform(b, WinningCombinations[j])
  {
    WinnerFromCharacterized(b, 0);
  }

  /** Completeness: a completed line always yields a winner, and when every
      uniform line belongs to the same player, that player is the winner
      (the table order is then unobservable). */
  lemma WinnerComplete(b: Board, j: nat, p: Player)
    requires j < |WinningCombinations| && Completes(b, WinningCombinations[j], p)
    ensures Winner(b).Some?
    ensures (forall i :: 0 <= i < |WinningCombinations| && Uniform(b, WinningCombinations[i])
              ==> Completes(b, WinningCombinations[i], p)) ==> Winner(b) == Some(p)
  {
    WinnerNoneIff(b);
    var w := Winner(b).value;
    WinnerIsFirstUniformLine(b, w);
  }

  /** isBoardFull: every cell is occupied. */
  predicate IsBoardFull(b: seq<Cell>) {
    forall i :: 0 <= i < |b| ==> b[i] != Empty
  }

  /** The empty indices in ascending order, built as the source's reduce
      builds them: left to right, pushing each empty index. */
  function EmptyCells(b: seq<Cell>): seq<nat>
    decreases |b|
  {
    if b == [] then []
    else EmptyCells(b[..|b| - 1]) + (if b[|b| - 1] == Empty then [|b| - 1] else [])
  }

  /** The reduce with `acc.push(index)`, as a loop. */
  method CollectEmptyCells(b: seq<Cell>) returns (cells: seq<nat>)
    ensures cells == EmptyCells(b)
  {
    cells := [];
    var i := 0;
    while i < |b|
      invariant 0 <= i <= |b|
      invariant cells == EmptyCells(b[..i])
    {
      assert b[..i + 1][..i] == b[..i];
      if b[i] == Empty {
        cells := cells + [i];
      }
      i := i + 1;
    }
    assert b[..i] == b;
  }

  /** `EmptyCells` lists exactly the empty indices, each once, in strictly
      increasing order. */
  lemma {:induction false} EmptyCellsExact(b: seq<Cell>)
    ensures forall k :: 0 <= k < |EmptyCells(b)| ==>
      EmptyCells(b)[k] < |b| && b[EmptyCells(b)[k]] == Empty
    ensures forall i :: 0 <= i < |b| && b[i] == Empty ==> i in EmptyCells(b)
    ensures forall j, k :: 0 <= j < k < |EmptyCells(b)| ==> EmptyCells(b)[j] < EmptyCells(b)[k]
    decreases |b|
  {
    if b != [] {
      var n := |b| - 1;
      var front := b[..n];
      EmptyCellsExact(front);
      assert forall i :: 0 <= i < n ==> front[i] == b[i];
    }
  }

  /** The board is full exactly when it has no empty cells to choose from. */
  lemma FullIffNoEmptyCells(b: seq<Cell>)
    ensures IsBoardFull(b) <==> EmptyCells(b) == []
  {
    EmptyCellsExact(b);
    if !IsBoardFull(b) {
      var i :| 0 <= i < |b| && b[i] == Empty;
      assert i in EmptyCells(b);
    }
  }

  /** `Math.floor(random * n)` for the draw `random = num / den`, which lies
      in [0, 1): an index below `n` when `n > 0`, and 0 when `n == 0`. */
  function PickIndex(num: nat, den: nat, n: nat): (k: nat)
    requires num < den
    ensures n > 0 ==> k < n
    ensures n == 0 ==> k == 0
  {
    DrawBelow(num, den, n);
    (num * n) / den
  }

  lemma DrawBelow(num: nat, den: nat, n: nat)
    requires num < den
    ensures n > 0 ==> (num * n) / den < n
    ensures n == 0 ==> (num * n) / den == 0
  {
    if n > 0 {
      var a := num * n;
      var q := a / den;
      DivTimesBelow(a, den);
      MulLessLeft(num, den, n);
      assert q * den < n * den;
      MulCancelLess(q, n, den);
    }
  }

  lemma DivTimesBelow(a: nat, d: nat)
    requires d > 0
    ensures (a / d) * d <= a
  {
    assert a == (a / d) * d + a % d;
  }

  lemma MulLessLeft(x: nat, y: nat, c: nat)
    requires x < y && c > 0
    ensures x * c < c * y
  {
    assert c * y - x * c == (y - x) * c;
  }

  lemma MulCancelLess(x: nat, y: nat, c: nat)
    requires c > 0 && x * c < y * c
    ensures x < y
  {
    assert y * c - x * c == (y - x) * c;
  }

  /** getComputerMove with the random draw `num / den`: the chosen entry of
      the empty-cell list, or `None` where the source indexes past the end
      of an empty list (its `undefined`). */
  function ComputerMove(b: seq<Cell>, num: nat, den: nat): (move: Option<nat>)
    requires num < den
    ensures move.Some? <==> !IsBoardFull(b)
    ensures move.Some? ==> move.value < |b| && b[move.value] == Empty
  {
    EmptyCellsExact(b);
    FullIffNoEmptyCells(b);
    var cells := EmptyCells(b);
    var k := PickIndex(num, den, |cells|);
    if k < |cells| then Some(cells[k]) else None
  }

  method GetComputerMove(b: seq<Cell>, num: nat, den: nat) returns (move: Option<nat>)
    requires num < den
    ensures move == ComputerMove(b, num, den)
  {
    var emptyCells := CollectEmptyCells(b);
    var k := PickIndex(num, den, |emptyCells|);
    if k < |emptyCells| {
      move := Some(emptyCells[k]);
    } else {
      move := None;
    }
  }

  /** With exactly one empty cell, every draw picks that cell. */
  lemma ComputerMoveSingleEmpty(b: seq<Cell>, i: nat, num: nat, den: nat)
    requires num < den
    requires i < |b| && b[i] == Empty
    requires forall j :: 0 <= j < |b| && j != i ==> b[j] != Empty
    ensures ComputerMove(b, num, den) == Some(i)
  {
    EmptyCellsOfSingle(b, i);
  }

  lemma {:induction false} EmptyCellsOfSingle(b: seq<Cell>, i: nat)
    requires i < |b| && b[i] == Empty
    requires forall j :: 0 <= j < |b| && j != i ==> b[j] != Empty
    ensures EmptyCells(b) == [i]
    decreases |b|
  {
    var n := |b| - 1;
    var front := b[..n];
    if i == n {
      FullIffNoEmptyCells(front);
      assert IsBoardFull(front);
    } else {
      EmptyCellsOfSingle(front, i);
    }
  }

  /** Every empty cell can be chosen: with `den` equal to the number of
      empty cells, the draws `num = 0 .. den-1` pick the empty cells one
      each, in ascending order. */
  lemma ComputerMoveReachesEveryEmptyCell(b: seq<Cell>, num: nat)
    requires num < |EmptyCells(b)|
    ensures ComputerMove(b, num, |EmptyCells(b)|) == Some(EmptyCells(b)[num])
  {
    MulDivCancel(num, |EmptyCells(b)|);
  }

  lemma MulDivCancel(a: nat, n: nat)
    requires n > 0
    ensures (a * n) / n == a
  {
    var q, r := (a * n) / n, (a * n) % n;
    assert a * n == q * n + r;
    assert (q + 1) * n == q * n + n;
    MulCancelLess(a, q + 1, n);
    assert (a + 1) * n == a * n + n;
    MulCancelLess(q, a + 1, n);
  }

  /** The number of cells holding `p`'s mark. */
  function Count(b: seq<Cell>, p: Player): nat
    decreases |b|
  {
    if b == [] then 0
    else (if b[0] == Mark(p) then 1 else 0) + Count(b[1..], p)
  }

  /** Marking an empty cell for `p` adds one to `p`'s count and leaves the
      other player's count alone. */
  lemma {:induction false} CountAfterPlace(b: seq<Cell>, i: nat, p: Player, q: Player)
    requires i < |b| && b[i] == Empty
    ensures Count(b[i := Mark(p)], q) == Count(b, q) + (if q == p then 1 else 0)
    decreases |b|
  {
    if i > 0 {
      assert b[i := Mark(p)][1..] == b[1..][i - 1 := Mark(p)];
      CountAfterPlace(b[1..], i - 1, p, q);
    } else {
      assert b[i := Mark(p)][1..] == b[1..];
    }
  }
}
