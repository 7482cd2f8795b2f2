/** Concrete positions on the empty 30 x 30 board, checked against the win rules. */
module Scenarios {
  import opened Gomoku

  /** Blue's stones in row 0, columns 0 to 4. */
  function RowOfFive(): (b: seq<Cell>)
    ensures |b| == CellCount
  {
    EmptyBoard()[0 := Stone(Blue)][1 := Stone(Blue)][2 := Stone(Blue)][3 := Stone(Blue)][4 := Stone(Blue)]
  }

  /** With the last stone at column 4 the scan finds nothing forward
      (column 5 is empty) and columns 3, 2, 1, 0 backward: the horizontal
      axis wins first, with the line 4, 3, 2, 1, 0. */
  lemma HorizontalWin()
    ensures AxisLine(RowOfFive(), 4, Directions[0]) == [4, 3, 2, 1, 0]
    ensures FirstWinningAxis(RowOfFive(), 4, 0)
  {
    RowEndForward();
    RowEndBackward();
    AxisLineWinsIff(RowOfFive(), 4, Directions[0]);
  }

  lemma RowEndForward()
    ensures HalfWalk(RowOfFive(), 0, 4, Direction(0, 1), Blue, 1) == []
  {
    assert !HoldsAt(RowOfFive(), 0, 4, Direction(0, 1), Blue, 1);
  }

  lemma RowEndBackward()
    ensures HalfWalk(RowOfFive(), 0, 4, Direction(0, -1), Blue, 1) == [3, 2, 1, 0]
  {
    var b := RowOfFive();
    assert HalfWalk(b, 0, 4, Direction(0, -1), Blue, 4) == [0];
    assert HalfWalk(b, 0, 4, Direction(0, -1), Blue, 3) == [1, 0];
    assert HalfWalk(b, 0, 4, Direction(0, -1), Blue, 2) == [2, 1, 0];
  }

  /** With the last stone in the middle (column 2) the line lists the
      forward matches before the backward ones: 2, 3, 4, 1, 0. */
  lemma MiddleStoneWin()
    ensures AxisLine(RowOfFive(), 2, Directions[0]) == [2, 3, 4, 1, 0]
    ensures FirstWinningAxis(RowOfFive(), 2, 0)
  {
    RowMiddleForward();
    RowMiddleBackward();
    AxisLineWinsIff(RowOfFive(), 2, Directions[0]);
  }

  lemma RowMiddleForward()
    ensures HalfWalk(RowOfFive(), 0, 2, Direction(0, 1), Blue, 1) == [3, 4]
  {
    var b := RowOfFive();
    assert !HoldsAt(b, 0, 2, Direction(0, 1), Blue, 3);
    assert HalfWalk(b, 0, 2, Direction(0, 1), Blue, 2) == [4];
  }

  lemma RowMiddleBackward()
    ensures HalfWalk(RowOfFive(), 0, 2, Direction(0, -1), Blue, 1) == [1, 0]
  {
    var b := RowOfFive();
    assert !HoldsAt(b, 0, 2, Direction(0, -1), Blue, 3);
    assert HalfWalk(b, 0, 2, Direction(0, -1), Blue, 2) == [0];
  }

  /** Blue's stones in column 0, rows 0 to 4. */
  function ColumnOfFive(): (b: seq<Cell>)
    ensures |b| == CellCount
  {
    EmptyBoard()[0 := Stone(Blue)][30 := Stone(Blue)][60 := Stone(Blue)][90 := Stone(Blue)][120 := Stone(Blue)]
  }

  /** The horizontal axis through 120 holds that stone alone; the vertical
      axis wins with the line 120, 90, 60, 30, 0. */
  lemma VerticalWin()
    ensures AxisLine(ColumnOfFive(), 120, Directions[0]) == [120]
    ensures AxisLine(ColumnOfFive(), 120, Directions[1]) == [120, 90, 60, 30, 0]
    ensures FirstWinningAxis(ColumnOfFive(), 120, 1)
  {
    ColumnHorizontal();
    ColumnEndForward();
    ColumnEndBackward();
    AxisLineWinsIff(ColumnOfFive(), 120, Directions[0]);
    AxisLineWinsIff(ColumnOfFive(), 120, Directions[1]);
  }

  lemma ColumnHorizontal()
    ensures HalfWalk(ColumnOfFive(), 4, 0, Direction(0, 1), Blue, 1) == []
    ensures HalfWalk(ColumnOfFive(), 4, 0, Direction(0, -1), Blue, 1) == []
  {
    assert !HoldsAt(ColumnOfFive(), 4, 0, Direction(0, 1), Blue, 1);
    assert !HoldsAt(ColumnOfFive(), 4, 0, Direction(0, -1), Blue, 1);
  }

  lemma ColumnEndForward()
    ensures HalfWalk(ColumnOfFive(), 4, 0, Direction(1, 0), Blue, 1) == []
  {
    assert !HoldsAt(ColumnOfFive(), 4, 0, Direction(1, 0), Blue, 1);
  }

  lemma ColumnEndBackward()
    ensures HalfWalk(ColumnOfFive(), 4, 0, Direction(-1, 0), Blue, 1) == [90, 60, 30, 0]
  {
    var b := ColumnOfFive();
    assert HalfWalk(b, 4, 0, Direction(-1, 0), Blue, 4) == [0];
    assert HalfWalk(b, 4, 0, Direction(-1, 0), Blue, 3) == [30, 0];
    assert HalfWalk(b, 4, 0, Direction(-1, 0), Blue, 2) == [60, 30, 0];
  }

  /** Blue's stones on the main diagonal, from (0, 0) to (4, 4). */
  function DiagonalOfFive(): (b: seq<Cell>)
    ensures |b| == CellCount
  {
    EmptyBoard()[0 := Stone(Blue)][31 := Stone(Blue)][62 := Stone(Blue)][93 := Stone(Blue)][124 := Stone(Blue)]
  }

  /** Neither the horizontal nor the vertical axis through 124 wins; the `\`
      axis wins with the line 124, 93, 62, 31, 0. */
  lemma DiagonalWin()
    ensures AxisLine(DiagonalOfFive(), 124, Directions[2]) == [124, 93, 62, 31, 0]
    ensures FirstWinningAxis(DiagonalOfFive(), 124, 2)
  {
    DiagonalOtherAxes();
    DiagonalEndForward();
    DiagonalEndBackward();
    AxisLineWinsIff(DiagonalOfFive(), 124, Directions[2]);
  }

  /** Through (4, 4) the row and the column hold no other stone. */
  lemma DiagonalOtherAxes()
    ensures !FiveThrough(DiagonalOfFive(), 124, Directions[0])
    ensures !FiveThrough(DiagonalOfFive(), 124, Directions[1])
  {
    var b := DiagonalOfFive();
    assert !HoldsAt(b, 4, 4, Direction(0, 1), Blue, 1);
    assert !HoldsAt(b, 4, 4, Direction(0, -1), Blue, 1);
    assert !HoldsAt(b, 4, 4, Direction(1, 0), Blue, 1);
    assert !HoldsAt(b, 4, 4, Direction(-1, 0), Blue, 1);
    AxisLineWinsIff(b, 124, Directions[0]);
    AxisLineWinsIff(b, 124, Directions[1]);
  }

  lemma DiagonalEndForward()
    ensures HalfWalk(DiagonalOfFive(), 4, 4, Direction(1, 1), Blue, 1) == []
  {
    assert !HoldsAt(DiagonalOfFive(), 4, 4, Direction(1, 1), Blue, 1);
  }

  lemma DiagonalEndBackward()
    ensures HalfWalk(DiagonalOfFive(), 4, 4, Direction(-1, -1), Blue, 1) == [93, 62, 31, 0]
  {
    var b := DiagonalOfFive();
    assert HalfWalk(b, 4, 4, Direction(-1, -1), Blue, 4) == [0];
    assert HalfWalk(b, 4, 4, Direction(-1, -1), Blue, 3) == [31, 0];
    assert HalfWalk(b, 4, 4, Direction(-1, -1), Blue, 2) == [62, 31, 0];
  }

  /** Blue's stones on five consecutive indices that wrap from the end of
      row 0 into row 1: columns 27, 28, 29 of row 0 and 0, 1 of row 1. */
  function WrappedFive(): (b: seq<Cell>)
    ensures |b| == CellCount
  {
    EmptyBoard()[27 := Stone(Blue)][28 := Stone(Blue)][29 := Stone(Blue)][30 := Stone(Blue)][31 := Stone(Blue)]
  }

  /** The scan does not wrap around the board edge: five consecutive indices
      split over two rows are no win for the stone at the end of row 0. */
  lemma WrapAroundIsNoWin()
    ensures forall k :: 0 <= k < |Directions| ==> !FiveThrough(WrappedFive(), 29, Directions[k])
  {
    WrappedRow();
    WrappedColumn();
    WrappedDiagonals();
  }

  /** Along row 0 the scan stops at the right edge and finds only 28 and 27 to the left. */
  lemma WrappedRowLine()
    ensures AxisLine(WrappedFive(), 29, Directions[0]) == [29, 28, 27]
  {
    WrappedRowForward();
    WrappedRowBackward();
  }

  /** So the row through 29 has no five in a row. */
  lemma WrappedRow()
    ensures !FiveThrough(WrappedFive(), 29, Directions[0])
  {
    WrappedRowLine();
    AxisLineWinsIff(WrappedFive(), 29, Directions[0]);
  }

  lemma WrappedRowForward()
    ensures HalfWalk(WrappedFive(), 0, 29, Direction(0, 1), Blue, 1) == []
  {
    assert !HoldsAt(WrappedFive(), 0, 29, Direction(0, 1), Blue, 1);
  }

  lemma WrappedRowBackward()
    ensures HalfWalk(WrappedFive(), 0, 29, Direction(0, -1), Blue, 1) == [28, 27]
  {
    var b := WrappedFive();
    assert !HoldsAt(b, 0, 29, Direction(0, -1), Blue, 3);
    assert HalfWalk(b, 0, 29, Direction(0, -1), Blue, 2) == [27];
  }

  /** In column 29 the cell below is empty and the cell above is off the board. */
  lemma WrappedColumn()
    ensures !FiveThrough(WrappedFive(), 29, Directions[1])
  {
    var b := WrappedFive();
    assert !HoldsAt(b, 0, 29, Direction(1, 0), Blue, 1);
    assert !HoldsAt(b, 0, 29, Direction(-1, 0), Blue, 1);
    AxisLineWinsIff(b, 29, Directions[1]);
  }

  /** Neither diagonal through 29 holds another stone: each neighbour is empty or off the board. */
  lemma WrappedDiagonals()
    ensures !FiveThrough(WrappedFive(), 29, Directions[2])
    ensures !FiveThrough(WrappedFive(), 29, Directions[3])
  {
    var b := WrappedFive();
    assert !HoldsAt(b, 0, 29, Direction(1, 1), Blue, 1);
    assert !HoldsAt(b, 0, 29, Direction(-1, -1), Blue, 1);
    assert !HoldsAt(b, 0, 29, Direction(1, -1), Blue, 1);
    assert !HoldsAt(b, 0, 29, Direction(-1, 1), Blue, 1);
    AxisLineWinsIff(b, 29, Directions[2]);
    AxisLineWinsIff(b, 29, Directions[3]);
  }
}
