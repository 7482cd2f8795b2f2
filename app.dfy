/** The game engine behind the Gomoku board: the win check run after every
    move, and the game state with its two operations, placing a stone and
    starting a new game. */
module App {
  import opened Gomoku

  /** Scans the four axes through the stone just placed at `index`, in the
      order horizontal, vertical, `\`, `/`, and reports the first axis whose
      count reaches five together with the cells it counted; if there is
      none, there is no winner. */
  method CheckWinner(squares: seq<Cell>, index: int) returns (result: Option<Win>)
    requires |squares| == CellCount
    requires 0 <= index < CellCount && squares[index].Stone?
    ensures result.None? <==>
              forall k :: 0 <= k < |Directions| ==> !FiveThrough(squares, index, Directions[k])
    ensures result.Some? ==>
              exists k :: FirstWinningAxis(squares, index, k) &&
                result.value.line == AxisLine(squares, index, Directions[k])
    ensures result.Some? ==>
              result.value.winner == squares[index].owner &&
              IsWinningLine(squares, index, result.value.winner, result.value.line)
  {
    var row := index / BoardSize;
    var col := index % BoardSize;
    var player := squares[index];

    for a := 0 to |Directions|
      invariant forall j :: 0 <= j < a ==> !FiveThrough(squares, index, Directions[j])
    {
      var count, line := ScanAxis(squares, index, row, col, Directions[a].dx, Directions[a].dy);
      AxisLineWinsIff(squares, index, Directions[a]);
      if count >= WinLength {
        AxisLineShape(squares, index, Directions[a]);
        assert FirstWinningAxis(squares, index, a);
        return Some(Win(player.owner, line));
      }
    }
    return None;
  }

  /** One pass of the scan: the stone at `index` itself, then up to four
      matching cells forward along (dx, dy) and up to four backward. */
  method ScanAxis(squares: seq<Cell>, index: int, row: int, col: int, dx: int, dy: int)
    returns (count: int, line: seq<int>)
    requires |squares| == CellCount
    requires 0 <= index < CellCount && squares[index].Stone?
    requires row == index / BoardSize && col == index % BoardSize
    ensures line == AxisLine(squares, index, Direction(dx, dy))
    ensures count == |line|
  {
    var player := squares[index];
    count := 1;
    line := [index];
    count, line := WalkForward(squares, row, col, dx, dy, player, count, line);
    count, line := WalkBackward(squares, row, col, dx, dy, player, count, line);
  }

  /** The forward walk of one pass: appends the cells 1, 2, 3, 4 steps
      along (dx, dy) that hold `player`'s stone, stopping at the board edge
      or the first cell that does not. */
  method WalkForward(squares: seq<Cell>, row: int, col: int, dx: int, dy: int, player: Cell,
                     count0: int, line0: seq<int>)
    returns (count: int, line: seq<int>)
    requires |squares| == CellCount && player.Stone? && count0 == |line0|
    ensures line == line0 + HalfWalk(squares, row, col, Direction(dx, dy), player.owner, 1)
    ensures count == |line|
  {
    ghost var p, d := player.owner, Direction(dx, dy);
    count, line := count0, line0;
    var i := 1;
    while i < WinLength
      invariant 1 <= i <= WinLength
      invariant line + HalfWalk(squares, row, col, d, p, i) == line0 + HalfWalk(squares, row, col, d, p, 1)
      invariant count == |line|
    {
      var newRow := row + dx * i;
      var newCol := col + dy * i;
      if newRow < 0 || newRow >= BoardSize || newCol < 0 || newCol >= BoardSize {
        assert HalfWalk(squares, row, col, d, p, i) == [];
        break;
      }
      var newIndex := newRow * BoardSize + newCol;
      assert newIndex == IdxAt(row, col, d, i);
      if squares[newIndex] == player {
        count := count + 1;
        assert HalfWalk(squares, row, col, d, p, i) == [newIndex] + HalfWalk(squares, row, col, d, p, i + 1);
        AppendAssociative(line, [newIndex], HalfWalk(squares, row, col, d, p, i + 1));
        line := line + [newIndex];
      } else {
        assert HalfWalk(squares, row, col, d, p, i) == [];
        break;
      }
      i := i + 1;
    }
  }

  /** The backward walk of one pass: the same as the forward walk with the
      steps subtracted, so it walks along (-dx, -dy). */
  method WalkBackward(squares: seq<Cell>, row: int, col: int, dx: int, dy: int, player: Cell,
                      count0: int, line0: seq<int>)
    returns (count: int, line: seq<int>)
    requires |squares| == CellCount && player.Stone? && count0 == |line0|
    ensures line == line0 + HalfWalk(squares, row, col, Reverse(Direction(dx, dy)), player.owner, 1)
    ensures count == |line|
  {
    ghost var p, r := player.owner, Reverse(Direction(dx, dy));
    count, line := count0, line0;
    var i := 1;
    while i < WinLength
      invariant 1 <= i <= WinLength
      invariant line + HalfWalk(squares, row, col, r, p, i) == line0 + HalfWalk(squares, row, col, r, p, 1)
      invariant count == |line|
    {
      var newRow := row - dx * i;
      var newCol := col - dy * i;
      assert newRow == row + r.dx * i && newCol == col + r.dy * i by {
        ReverseStep(row, col, Direction(dx, dy), i);
      }
      if newRow < 0 || newRow >= BoardSize || newCol < 0 || newCol >= BoardSize {
        assert HalfWalk(squares, row, col, r, p, i) == [];
        break;
      }
      var newIndex := newRow * BoardSize + newCol;
      assert newIndex == IdxAt(row, col, r, i);
      if squares[newIndex] == player {
        count := count + 1;
        assert HalfWalk(squares, row, col, r, p, i) == [newIndex] + HalfWalk(squares, row, col, r, p, i + 1);
        AppendAssociative(line, [newIndex], HalfWalk(squares, row, col, r, p, i + 1));
        line := line + [newIndex];
      } else {
        assert HalfWalk(squares, row, col, r, p, i) == [];
        break;
      }
      i := i + 1;
    }
  }

  lemma AppendAssociative(a: seq<int>, b: seq<int>, c: seq<int>)
    ensures (a + b) + c == a + (b + c)
  {
  }

  /** The invariant of the game state: a game is under way exactly when a
      stone has been placed; a winner comes with its winning line and moved
      last; without a winner there is no line and no five in a row anywhere
      on the board; and the players took turns starting with blue, so blue
      leads by one stone exactly when blue made the last move. */
  ghost predicate Consistent(board: seq<Cell>, currentPlayer: Player, winner: Option<Player>,
                             winningLine: seq<int>, gameStarted: bool)
  {
    |board| == CellCount &&
    (gameStarted <==> board != EmptyBoard()) &&
    (winner.Some? ==>
       winningLine != [] && IsWinningLine(board, winningLine[0], winner.value, winningLine) &&
       currentPlayer == winner.value) &&
    (winner.None? ==> winningLine == [] && NoFive(board)) &&
    var lastMoverBlue := if winner.Some? then winner.value == Blue else currentPlayer == Red;
    StoneCount(board, Blue) == StoneCount(board, Red) + (if lastMoverBlue then 1 else 0)
  }

  /** The state of a fresh game is consistent. */
  lemma InitialConsistent()
    ensures Consistent(EmptyBoard(), Blue, None, [], false)
  {
    StoneCountEmpty(EmptyBoard(), Blue);
    StoneCountEmpty(EmptyBoard(), Red);
  }

  /** A move that does not win keeps the state consistent once the turn passes. */
  lemma MoveConsistent(board: seq<Cell>, p: Player, started: bool, index: int)
    requires Consistent(board, p, None, [], started)
    requires 0 <= index < CellCount && board[index] == Empty
    requires forall k :: 0 <= k < |Directions| ==>
               !FiveThrough(board[index := Stone(p)], index, Directions[k])
    ensures Consistent(board[index := Stone(p)], Other(p), None, [], true)
  {
    var after := board[index := Stone(p)];
    assert after[index] != EmptyBoard()[index];
    StoneCountPlace(board, index, p, Blue);
    StoneCountPlace(board, index, p, Red);
    PlacementNoMissedWin(board, index, p);
  }

  /** A winning move with its line keeps the state consistent, the winner still to move. */
  lemma WinConsistent(board: seq<Cell>, p: Player, started: bool, index: int, line: seq<int>)
    requires Consistent(board, p, None, [], started)
    requires 0 <= index < CellCount && board[index] == Empty
    requires IsWinningLine(board[index := Stone(p)], index, p, line)
    ensures Consistent(board[index := Stone(p)], p, Some(p), line, true)
  {
    var after := board[index := Stone(p)];
    assert after[index] != EmptyBoard()[index];
    StoneCountPlace(board, index, p, Blue);
    StoneCountPlace(board, index, p, Red);
  }

  /** The state of one game. */
  class Game {
    var board: seq<Cell>
    var currentPlayer: Player
    var winner: Option<Player>
    var winningLine: seq<int>
    var gameStarted: bool

    ghost predicate Valid()
      reads this
    {
      Consistent(board, currentPlayer, winner, winningLine, gameStarted)
    }

    /** The state of a fresh game: empty board, blue to move, no winner, no line, not started. */
    ghost predicate IsInitial()
      reads this
    {
      board == EmptyBoard() && currentPlayer == Blue &&
      winner == None && winningLine == [] && !gameStarted
    }

    constructor ()
      ensures Valid() && IsInitial()
    {
      board := EmptyBoard();
      currentPlayer := Blue;
      winner := None;
      winningLine := [];
      gameStarted := false;
      new;
      InitialConsistent();
    }

    /** A click on cell `index`. On an occupied cell or once there is a
        winner nothing changes. Otherwise the game starts, the current
        player's stone goes into the cell, and either the player wins with
        the line found through that cell, or the turn passes to the other
        player. */
    method HandleClick(index: int)
      requires Valid()
      requires 0 <= index < CellCount
      modifies this
      ensures Valid()
      ensures old(board[index].Stone? || winner.Some?) ==>
                board == old(board) && currentPlayer == old(currentPlayer) &&
                winner == old(winner) && winningLine == old(winningLine) &&
                gameStarted == old(gameStarted)
      ensures old(board[index] == Empty && winner.None?) ==>
                board == old(board)[index := Stone(old(currentPlayer))] &&
                (forall j :: 0 <= j < |board| ==> (board[j] != old(board)[j] <==> j == index)) &&
                gameStarted &&
                (winner.Some? <==>
                   exists k :: 0 <= k < |Directions| && FiveThrough(board, index, Directions[k])) &&
                (winner.Some? ==>
                   winner == Some(old(currentPlayer)) && currentPlayer == old(currentPlayer) &&
                   winningLine[0] == index &&
                   exists k :: FirstWinningAxis(board, index, k) &&
                     winningLine == AxisLine(board, index, Directions[k])) &&
                (winner.None? ==>
                   currentPlayer == Other(old(currentPlayer)) && winningLine == [])
    {
      if board[index].Stone? || winner.Some? {
        return;
      }

      if !gameStarted {
        gameStarted := true;
      }

      ghost var before, started := board, old(gameStarted);
      var newBoard := board[index := Stone(currentPlayer)];
      board := newBoard;

      var result := CheckWinner(newBoard, index);
      if result.Some? {
        WinConsistent(before, currentPlayer, started, index, result.value.line);
        winner := Some(result.value.winner);
        winningLine := result.value.line;
      } else {
        MoveConsistent(before, currentPlayer, started, index);
        currentPlayer := if currentPlayer == Blue then Red else Blue;
      }
    }

    /** Starts a new game from any state. */
    method ResetGame()
      modifies this
      ensures Valid() && IsInitial()
    {
      board := EmptyBoard();
      currentPlayer := Blue;
      winner := None;
      winningLine := [];
      gameStarted := false;
      InitialConsistent();
    }
  }
}
