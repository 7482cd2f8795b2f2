/** Data model and win rules of a two-player Gomoku (five-in-a-row) game
    on a fixed 30 x 30 board. The board is a flat sequence of cells; cell
    `i` lies at row `i / BoardSize` and column `i % BoardSize`. */
module Gomoku {

  const BoardSize: int := 30
  const WinLength: int := 5
  const CellCount: int := BoardSize * BoardSize

  /** The two players; the presentation shows them as blue and red. */
  datatype Player = Blue | Red

  /** A cell is empty or holds the stone of one player. */
  datatype Cell = Empty | Stone(owner: Player)

  datatype Option<T> = None | Some(value: T)

  /** An axis direction: `dx` is the row step, `dy` the column step. */
  datatype Direction = Direction(dx: int, dy: int)

  /** The win report: the player and the cells of its line. */
  datatype Win = Win(winner: Player, line: seq<int>)

  /** The axes in scan order: horizontal, vertical, `\` and `/`. */
  const Directions: seq<Direction> :=
    [Direction(0, 1), Direction(1, 0), Direction(1, 1), Direction(1, -1)]

  /** The player who moves after `p`. */
  function Other(p: Player): (q: Player)
    ensures q != p
  {
    if p == Blue then Red else Blue
  }

  /** The board every game starts from. */
  function EmptyBoard(): (b: seq<Cell>)
    ensures |b| == CellCount
    ensures forall i :: 0 <= i < |b| ==> b[i] == Empty
  {
    seq(CellCount, _ => Empty)
  }

  // ---------------------------------------------------------------------
  // Geometry

  predicate InBounds(r: int, c: int) {
    0 <= r < BoardSize && 0 <= c < BoardSize
  }

  function Idx(r: int, c: int): int {
    r * BoardSize + c
  }

  function Row(i: int): int {
    i / BoardSize
  }

  function Col(i: int): int {
    i % BoardSize
  }

  /** Row and column of an in-bounds coordinate survive the trip through its index. */
  lemma CoordinatesRoundTrip(r: int, c: int)
    requires InBounds(r, c)
    ensures 0 <= Idx(r, c) < CellCount
    ensures Row(Idx(r, c)) == r && Col(Idx(r, c)) == c
  {
  }

  /** Every index on the board has in-bounds coordinates that map back to it. */
  lemma IndexRoundTrip(i: int)
    requires 0 <= i < CellCount
    ensures InBounds(Row(i), Col(i)) && Idx(Row(i), Col(i)) == i
  {
  }

  /** Two in-bounds coordinates with the same index coincide. */
  lemma IdxInjective(r1: int, c1: int, r2: int, c2: int)
    requires InBounds(r1, c1) && InBounds(r2, c2)
    requires Idx(r1, c1) == Idx(r2, c2)
    ensures r1 == r2 && c1 == c2
  {
    CoordinatesRoundTrip(r1, c1);
    CoordinatesRoundTrip(r2, c2);
  }

  /** The index `s` steps from (row, col) along `d` (negative `s` walks backward). */
  function IdxAt(row: int, col: int, d: Direction, s: int): int {
    Idx(row + d.dx * s, col + d.dy * s)
  }

  /** The cell `s` steps from (row, col) along `d` is on the board and holds `p`. */
  predicate HoldsAt(board: seq<Cell>, row: int, col: int, d: Direction, p: Player, s: int)
    requires |board| == CellCount
  {
    InBounds(row + d.dx * s, col + d.dy * s) &&
    board[IdxAt(row, col, d, s)] == Stone(p)
  }

  function Reverse(d: Direction): Direction {
    Direction(-d.dx, -d.dy)
  }

  /** Walking `s` steps along the reversed axis is walking `-s` steps along it. */
  lemma ReverseStep(row: int, col: int, d: Direction, s: int)
    ensures row + Reverse(d).dx * s == row + d.dx * -s == row - d.dx * s
    ensures col + Reverse(d).dy * s == col + d.dy * -s == col - d.dy * s
    ensures IdxAt(row, col, Reverse(d), s) == IdxAt(row, col, d, -s)
  {
  }

  /** On one of the four axes, distinct steps reach distinct in-bounds cells. */
  lemma StepInjective(row: int, col: int, d: Direction, s1: int, s2: int)
    requires d in Directions
    requires InBounds(row + d.dx * s1, col + d.dy * s1)
    requires InBounds(row + d.dx * s2, col + d.dy * s2)
    requires IdxAt(row, col, d, s1) == IdxAt(row, col, d, s2)
    ensures s1 == s2
  {
    IdxInjective(row + d.dx * s1, col + d.dy * s1, row + d.dx * s2, col + d.dy * s2);
    if d.dy != 0 {
      assert d.dy == 1 || d.dy == -1;
    } else {
      assert d.dx == 1;
    }
  }

  // ---------------------------------------------------------------------
  // The scan of one axis, as a reference definition

  /** The cells met when walking from (row, col) along `d`, starting at
      step `i` and going no further than step `WinLength - 1`, up to (not
      including) the first step that leaves the board or does not hold `p`. */
  function HalfWalk(board: seq<Cell>, row: int, col: int, d: Direction, p: Player, i: nat): (cells: seq<int>)
    requires |board| == CellCount
    decreases WinLength - i
    ensures i < WinLength ==> |cells| <= WinLength - i
  {
    if i >= WinLength then []
    else if !HoldsAt(board, row, col, d, p, i) then []
    else
      var rest := HalfWalk(board, row, col, d, p, i + 1);
      [IdxAt(row, col, d, i)] + rest
  }

  /** A half-walk that ends before step `WinLength - 1` ends at a step that
      leaves the board or does not hold `p`. */
  lemma {:induction false} HalfWalkStops(board: seq<Cell>, row: int, col: int, d: Direction, p: Player, i: nat)
    requires |board| == CellCount
    ensures var n := |HalfWalk(board, row, col, d, p, i)|;
      i + n < WinLength ==> !HoldsAt(board, row, col, d, p, i + n)
    decreases WinLength - i
  {
    if i < WinLength && HoldsAt(board, row, col, d, p, i) {
      HalfWalkStops(board, row, col, d, p, i + 1);
    }
  }

  /** The line collected on axis `d` through the stone at `index`: the
      stone itself, then the forward matches, then the backward ones. */
  function AxisLine(board: seq<Cell>, index: int, d: Direction): seq<int>
    requires |board| == CellCount && 0 <= index < CellCount && board[index].Stone?
  {
    var p := board[index].owner;
    [index] + HalfWalk(board, Row(index), Col(index), d, p, 1)
            + HalfWalk(board, Row(index), Col(index), Reverse(d), p, 1)
  }

  // ---------------------------------------------------------------------
  // Five in a row, stated without any scan

  /** Steps `lo..hi` (with `lo <= 0 <= hi`) along `d` from `index` form an
      unbroken run of at least `WinLength` stones of the player at `index`. */
  predicate IsRun(board: seq<Cell>, index: int, d: Direction, lo: int, hi: int)
    requires |board| == CellCount && 0 <= index < CellCount && board[index].Stone?
  {
    lo <= 0 <= hi && hi - lo + 1 >= WinLength &&
    forall s :: lo <= s <= hi ==> HoldsAt(board, Row(index), Col(index), d, board[index].owner, s)
  }

  /** The stone at `index` is part of five (or more) in a row along `d`. */
  ghost predicate FiveThrough(board: seq<Cell>, index: int, d: Direction)
    requires |board| == CellCount && 0 <= index < CellCount && board[index].Stone?
  {
    exists lo, hi :: IsRun(board, index, d, lo, hi)
  }

  /** Axis `k` is the first axis, in scan order, with five in a row through `index`. */
  ghost predicate FirstWinningAxis(board: seq<Cell>, index: int, k: int)
    requires |board| == CellCount && 0 <= index < CellCount && board[index].Stone?
  {
    0 <= k < |Directions| &&
    FiveThrough(board, index, Directions[k]) &&
    forall j :: 0 <= j < k ==> !FiveThrough(board, index, Directions[j])
  }

  /** No stone on the board is part of five in a row on any axis. */
  ghost predicate NoFive(board: seq<Cell>)
    requires |board| == CellCount
  {
    forall i, d :: 0 <= i < CellCount && board[i].Stone? && d in Directions ==>
      !FiveThrough(board, i, d)
  }

  /** What a reported winning line looks like: it starts at the placed
      stone, has between 5 and 9 cells, and its cells are distinct board
      indices that all hold the winner's stone. */
  predicate IsWinningLine(board: seq<Cell>, index: int, p: Player, line: seq<int>)
    requires |board| == CellCount
  {
    WinLength <= |line| <= 2 * (WinLength - 1) + 1 &&
    line[0] == index &&
    (forall k :: 0 <= k < |line| ==> 0 <= line[k] < CellCount && board[line[k]] == Stone(p)) &&
    (forall j, k :: 0 <= j < k < |line| ==> line[j] != line[k])
  }

  // ---------------------------------------------------------------------
  // Lemmas relating the scan to five in a row

  /** A half-walk reaches at least `m - i + 1` cells when steps `i..m` all hold `p`. */
  lemma {:induction false} HalfWalkCovers(board: seq<Cell>, row: int, col: int, d: Direction, p: Player, i: nat, m: int)
    requires |board| == CellCount
    requires i <= m < WinLength
    requires forall s :: i <= s <= m ==> HoldsAt(board, row, col, d, p, s)
    ensures |HalfWalk(board, row, col, d, p, i)| >= m - i + 1
    decreases m - i
  {
    assert HoldsAt(board, row, col, d, p, i);
    if i < m {
      HalfWalkCovers(board, row, col, d, p, i + 1, m);
    }
  }

  /** Step `s` of a half-walk from step `i` holds `p`, and its cell is the
      walk's element `s - i`: the walk lists consecutive steps in order. */
  lemma {:induction false} HalfWalkAt(board: seq<Cell>, row: int, col: int, d: Direction, p: Player, i: nat, s: int)
    requires |board| == CellCount
    requires i <= s < i + |HalfWalk(board, row, col, d, p, i)|
    ensures HoldsAt(board, row, col, d, p, s)
    ensures HalfWalk(board, row, col, d, p, i)[s - i] == IdxAt(row, col, d, s)
    decreases s - i
  {
    if s > i {
      HalfWalkAt(board, row, col, d, p, i + 1, s);
    }
  }

  /** The scan's count on axis `d` reaches `WinLength` exactly when the stone
      at `index` is part of five in a row along `d`. */
  lemma AxisLineWinsIff(board: seq<Cell>, index: int, d: Direction)
    requires |board| == CellCount && 0 <= index < CellCount && board[index].Stone?
    ensures |AxisLine(board, index, d)| >= WinLength <==> FiveThrough(board, index, d)
  {
    if |AxisLine(board, index, d)| >= WinLength {
      AxisLineIsRun(board, index, d);
    }
    if FiveThrough(board, index, d) {
      var lo, hi :| IsRun(board, index, d, lo, hi);
      RunReachesAxisLine(board, index, d, lo, hi);
    }
  }

  /** The cells the scan collects on axis `d` form a run through `index`. */
  lemma AxisLineIsRun(board: seq<Cell>, index: int, d: Direction)
    requires |board| == CellCount && 0 <= index < CellCount && board[index].Stone?
    requires |AxisLine(board, index, d)| >= WinLength
    ensures FiveThrough(board, index, d)
  {
    var p := board[index].owner;
    var row, col := Row(index), Col(index);
    var lo := -|HalfWalk(board, row, col, Reverse(d), p, 1)|;
    var hi := |HalfWalk(board, row, col, d, p, 1)|;
    forall s | lo <= s <= hi
      ensures HoldsAt(board, row, col, d, p, s)
    {
      if s < 0 {
        BackwardAt(board, index, d, -s);
      } else if s > 0 {
        ForwardAt(board, index, d, s);
      } else {
        IndexRoundTrip(index);
      }
    }
    assert IsRun(board, index, d, lo, hi);
  }

  /** A run through `index` on axis `d` makes the scan's count reach `WinLength`. */
  lemma RunReachesAxisLine(board: seq<Cell>, index: int, d: Direction, lo: int, hi: int)
    requires |board| == CellCount && 0 <= index < CellCount && board[index].Stone?
    requires IsRun(board, index, d, lo, hi)
    ensures |AxisLine(board, index, d)| >= WinLength
  {
    var p := board[index].owner;
    var row, col := Row(index), Col(index);
    var f := if hi < WinLength - 1 then hi else WinLength - 1;
    var b := if -lo < WinLength - 1 then -lo else WinLength - 1;
    if f >= 1 {
      HalfWalkCovers(board, row, col, d, p, 1, f);
    }
    if b >= 1 {
      forall s | 1 <= s <= b
        ensures HoldsAt(board, row, col, Reverse(d), p, s)
      {
        assert HoldsAt(board, row, col, d, p, -s);
        ReverseStep(row, col, d, s);
      }
      HalfWalkCovers(board, row, col, Reverse(d), p, 1, b);
    }
  }

  /** The signed step along the axis of position `k` of an axis line whose
      forward part has `f` cells. */
  function LineStep(k: int, f: int): int {
    if k <= f then k else -(k - f)
  }

  /** Position `k` of the line collected on axis `d` is the cell `LineStep(k)`
      steps along `d`, and that cell holds the stone at `index`. */
  lemma AxisLineAt(board: seq<Cell>, index: int, d: Direction, k: int) returns (s: int)
    requires |board| == CellCount && 0 <= index < CellCount && board[index].Stone?
    requires 0 <= k < |AxisLine(board, index, d)|
    ensures s == LineStep(k, |HalfWalk(board, Row(index), Col(index), d, board[index].owner, 1)|)
    ensures HoldsAt(board, Row(index), Col(index), d, board[index].owner, s)
    ensures AxisLine(board, index, d)[k] == IdxAt(Row(index), Col(index), d, s)
  {
    var p := board[index].owner;
    var row, col := Row(index), Col(index);
    var fwd := HalfWalk(board, row, col, d, p, 1);
    var bwd := HalfWalk(board, row, col, Reverse(d), p, 1);
    if k == 0 {
      s := 0;
      CenterAt(board, index, d);
    } else if k <= |fwd| {
      s := k;
      ForwardAt(board, index, d, k);
    } else {
      s := -(k - |fwd|);
      BackwardAt(board, index, d, k - |fwd|);
    }
  }

  /** Position 0 of an axis line is step 0 along `d`: the stone at `index` itself. */
  lemma CenterAt(board: seq<Cell>, index: int, d: Direction)
    requires |board| == CellCount && 0 <= index < CellCount && board[index].Stone?
    ensures HoldsAt(board, Row(index), Col(index), d, board[index].owner, 0)
    ensures AxisLine(board, index, d)[0] == IdxAt(Row(index), Col(index), d, 0)
  {
    IndexRoundTrip(index);
    assert d.dx * 0 == 0 && d.dy * 0 == 0;
  }

  /** Position `k` of the forward part of an axis line is step `k` along `d`. */
  lemma ForwardAt(board: seq<Cell>, index: int, d: Direction, k: int)
    requires |board| == CellCount && 0 <= index < CellCount && board[index].Stone?
    requires 1 <= k <= |HalfWalk(board, Row(index), Col(index), d, board[index].owner, 1)|
    ensures HoldsAt(board, Row(index), Col(index), d, board[index].owner, k)
    ensures AxisLine(board, index, d)[k] == IdxAt(Row(index), Col(index), d, k)
  {
    var p := board[index].owner;
    var fwd := HalfWalk(board, Row(index), Col(index), d, p, 1);
    assert AxisLine(board, index, d)[k] == fwd[k - 1];
    HalfWalkAt(board, Row(index), Col(index), d, p, 1, k);
  }

  /** Position `k` of the backward part of an axis line is step `-k` along `d`. */
  lemma BackwardAt(board: seq<Cell>, index: int, d: Direction, k: int)
    requires |board| == CellCount && 0 <= index < CellCount && board[index].Stone?
    requires 1 <= k <= |HalfWalk(board, Row(index), Col(index), Reverse(d), board[index].owner, 1)|
    ensures HoldsAt(board, Row(index), Col(index), d, board[index].owner, -k)
    ensures var f := |HalfWalk(board, Row(index), Col(index), d, board[index].owner, 1)|;
      AxisLine(board, index, d)[f + k] == IdxAt(Row(index), Col(index), d, -k)
  {
    var p := board[index].owner;
    var f := |HalfWalk(board, Row(index), Col(index), d, p, 1)|;
    var bwd := HalfWalk(board, Row(index), Col(index), Reverse(d), p, 1);
    assert AxisLine(board, index, d)[f + k] == bwd[k - 1];
    HalfWalkAt(board, Row(index), Col(index), Reverse(d), p, 1, k);
    ReverseStep(Row(index), Col(index), d, k);
  }

  /** The line collected on one of the four axes starts at `index`, has at
      most 9 cells, and lists distinct on-board cells that hold the stone at
      `index`. */
  lemma AxisLineShape(board: seq<Cell>, index: int, d: Direction)
    requires |board| == CellCount && 0 <= index < CellCount && board[index].Stone?
    requires d in Directions
    ensures var line := AxisLine(board, index, d);
      |line| >= WinLength ==> IsWinningLine(board, index, board[index].owner, line)
  {
    var p := board[index].owner;
    var row, col := Row(index), Col(index);
    var f := |HalfWalk(board, row, col, d, p, 1)|;
    var line := AxisLine(board, index, d);
    forall k | 0 <= k < |line|
      ensures 0 <= line[k] < CellCount && board[line[k]] == Stone(p)
    {
      var s := AxisLineAt(board, index, d, k);
      CoordinatesRoundTrip(row + d.dx * s, col + d.dy * s);
    }
    forall j, k | 0 <= j < k < |line|
      ensures line[j] != line[k]
    {
      var sj := AxisLineAt(board, index, d, j);
      var sk := AxisLineAt(board, index, d, k);
      if line[j] == line[k] {
        StepInjective(row, col, d, sj, sk);
      }
    }
  }

  /** Placing a stone creates five in a row only through that stone: if the
      board had no five in a row and the new stone is part of none, the new
      board has none either. This is why the scan may start at the placed
      stone only. */
  lemma PlacementNoMissedWin(board: seq<Cell>, index: int, p: Player)
    requires |board| == CellCount && 0 <= index < CellCount && board[index] == Empty
    requires NoFive(board)
    requires forall k :: 0 <= k < |Directions| ==>
               !FiveThrough(board[index := Stone(p)], index, Directions[k])
    ensures NoFive(board[index := Stone(p)])
  {
    var after := board[index := Stone(p)];
    forall i, d | 0 <= i < CellCount && after[i].Stone? && d in Directions
      ensures !FiveThrough(after, i, d)
    {
      if FiveThrough(after, i, d) {
        var lo, hi :| IsRun(after, i, d, lo, hi);
        if i == index {
        } else if s0 :| lo <= s0 <= hi && IdxAt(Row(i), Col(i), d, s0) == index {
          RunShift(after, i, index, d, lo, hi, s0);
        } else {
          forall s | lo <= s <= hi
            ensures HoldsAt(board, Row(i), Col(i), d, after[i].owner, s)
          {
            assert HoldsAt(after, Row(i), Col(i), d, after[i].owner, s);
          }
          assert IsRun(board, i, d, lo, hi);
        }
      }
    }
  }

  /** A run through `i` that passes `s0` steps further through `j` is a run through `j`. */
  lemma RunShift(board: seq<Cell>, i: int, j: int, d: Direction, lo: int, hi: int, s0: int)
    requires |board| == CellCount && 0 <= i < CellCount && 0 <= j < CellCount
    requires board[i].Stone? && board[j].Stone?
    requires IsRun(board, i, d, lo, hi)
    requires lo <= s0 <= hi && IdxAt(Row(i), Col(i), d, s0) == j
    ensures IsRun(board, j, d, lo - s0, hi - s0)
  {
    var p := board[i].owner;
    var row, col := Row(i), Col(i);
    var row', col' := row + d.dx * s0, col + d.dy * s0;
    assert HoldsAt(board, row, col, d, p, s0);
    IndexRoundTrip(j);
    IdxInjective(row', col', Row(j), Col(j));
    assert board[j].owner == p;
    forall s | lo - s0 <= s <= hi - s0
      ensures HoldsAt(board, Row(j), Col(j), d, p, s)
    {
      assert HoldsAt(board, row, col, d, p, s0 + s);
      ShiftHolds(board, row, col, row', col', d, p, s0, s);
    }
  }

  /** Seen from the cell `s0` steps along `d`, step `s0 + s` is step `s`. */
  lemma ShiftHolds(board: seq<Cell>, row: int, col: int, row': int, col': int,
                   d: Direction, p: Player, s0: int, s: int)
    requires |board| == CellCount
    requires row' == row + d.dx * s0 && col' == col + d.dy * s0
    requires HoldsAt(board, row, col, d, p, s0 + s)
    ensures HoldsAt(board, row', col', d, p, s)
  {
    assert d.dx * (s0 + s) == d.dx * s0 + d.dx * s;
    assert d.dy * (s0 + s) == d.dy * s0 + d.dy * s;
  }

  // ---------------------------------------------------------------------
  // Stone counts

  /** The number of `p`'s stones on `board`. */
  function StoneCount(board: seq<Cell>, p: Player): nat
  {
    if board == [] then 0
    else (if board[0] == Stone(p) then 1 else 0) + StoneCount(board[1..], p)
  }

  /** Writing `p`'s stone into an empty cell adds one stone of `p` and none of the other player. */
  lemma {:induction false} StoneCountPlace(board: seq<Cell>, index: int, p: Player, q: Player)
    requires 0 <= index < |board| && board[index] == Empty
    ensures StoneCount(board[index := Stone(p)], q) == StoneCount(board, q) + (if p == q then 1 else 0)
  {
    var after := board[index := Stone(p)];
    if index > 0 {
      assert after[1..] == board[1..][index - 1 := Stone(p)];
      StoneCountPlace(board[1..], index - 1, p, q);
    } else {
      assert after[1..] == board[1..];
    }
  }

  /** A board with no stones counts zero of each player. */
  lemma {:induction false} StoneCountEmpty(board: seq<Cell>, p: Player)
    requires forall i :: 0 <= i < |board| ==> board[i] == Empty
    ensures StoneCount(board, p) == 0
  {
    if board != [] {
      StoneCountEmpty(board[1..], p);
    }
  }
}
