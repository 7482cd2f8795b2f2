# Gomoku engine

A Dafny model of the game engine inside the Gomoku (five-in-a-row) single-page
app. The engine lives in `src/App.jsx`. Two players, blue and red, place stones
on a 30 x 30 board. Blue moves first. A move that makes five or more in a row
through the new stone wins. "New Game" restores the initial state.

The model has three modules:

- `Gomoku` (`gomoku.dfy`) holds the data model and the win rules as
  reference definitions.
  - Data: `Player`, `Cell`, `Direction`, `Win`, the constants
    `BoardSize = 30` and `WinLength = 5`, and the four axes in scan order.
  - The scan of one half-axis is the function `HalfWalk`. Its contract and
    the lemmas `HalfWalkAt`, `HalfWalkStops` and `HalfWalkCovers`
    characterise it. `AxisLine` is the line the scan collects on one axis.
  - Five in a row is stated with no reference to the scan: `IsRun`,
    `FiveThrough` and `NoFive`.
  - Lemmas connect the scan to five in a row, and prove that the scan never
    misses a win.
- `App` (`app.dfy`) holds the engine itself.
  - `CheckWinner` is a method with the source's loops, `break`s and early
    return.
  - `Game` is a class with the source's five state fields. Its methods are
    `HandleClick` and `ResetGame`, and its constructor builds the initial
    state.
  - `Consistent` is the state invariant. Lemmas prove that every operation
    preserves it.
- `Scenarios` (`scenarios.dfy`) holds concrete positions on the empty
  board: a horizontal, a vertical and a `\` win, a win completed by the
  middle stone, and a row that wraps around the board edge and is not a win.

Modelling choices:

- The board is a `seq<Cell>` field that `HandleClick` replaces by an updated
  copy. The source does the same: it copies the array (`[...board]`), sets
  one cell, and stores the copy.
- React's state setters become plain field assignments in source order.
  `handleClick` reads each field before it writes it, so the sequential reading
  is exact.
- The cell values `null`, `'blue'` and `'red'` become `Empty`,
  `Stone(Blue)` and `Stone(Red)`.
- The source writes its per-axis body (two walks of up to four steps)
  inline in the `for` loop over directions. The model puts that body in the
  method `ScanAxis`, which `CheckWinner` calls once per axis. `ScanAxis`
  runs the two walk loops as the methods `WalkForward` and `WalkBackward`,
  which carry `count` and `line` in and out. The loops, their bounds checks
  and their `break`s are unchanged.
- `CheckWinner` requires `0 <= index < 900` and a stone at `index`. The
  source does not check these. Its only caller clicks a rendered cell and
  writes the stone just before the call.
- The source's arithmetic is on non-negative indices, where `Math.floor(index / 30)`
  and `index % 30` agree with Dafny's `/` and `%`. Only in-bounds
  coordinates are turned into indices, and the source checks the bounds
  first. So no wrap-around or overflow arises.

`handleClick` has no range guard on `index`: for an index outside 0..899,
`board[index]` is `undefined` and the move would go ahead. The model
therefore requires `0 <= index < 900`.

The reference definitions the contracts are written in map to the source as
follows:

- `Directions` is the axis list of src/App.jsx:20-25, in the same order.
- `Row` and `Col` are the row and column of src/App.jsx:15-16.
- `Idx` is the index formula of src/App.jsx:36.
- `IdxAt` is that formula applied to the stepped row and column of
  src/App.jsx:33-34 and 45-46.
- `HoldsAt` is the bounds check of src/App.jsx:35 and 47 together with the
  match test of src/App.jsx:37 and 49.
- `AxisLine` is the line one pass builds: `[index]` (src/App.jsx:29), then
  the forward pushes (line 39), then the backward pushes (line 51). Its
  length is the pass's `count`.
- `Consistent` is the game invariant described below the table, over the
  five fields of src/App.jsx:8-12.

## Model

| member | source | states |
|---|---|---|
| Gomoku.Other | src/App.jsx:77 | the player to move next is never the one who just moved |
| Gomoku.EmptyBoard | src/App.jsx:8 | the initial board has 30 x 30 = 900 cells, all empty |
| Gomoku.CoordinatesRoundTrip | src/App.jsx:33-36 | an in-bounds (row, column) gives an index in 0..899 whose row and column are the ones it came from |
| Gomoku.IndexRoundTrip | src/App.jsx:15-16 | every board index splits into an in-bounds row and column that map back to it |
| Gomoku.IdxInjective | src/App.jsx:36 | two in-bounds coordinates with the same index are the same cell, so bounds-checked steps never wrap into another row |
| Gomoku.StepInjective | src/App.jsx:20-25 | on each of the four axes, different signed step counts reach different cells |
| Gomoku.HalfWalk | src/App.jsx:32 | a walk from step `i` below `WinLength` collects at most `WinLength - i` cells, so a walk from step 1 collects at most 4 |
| Gomoku.HalfWalkAt | src/App.jsx:32-41 | the walk lists consecutive steps in order: its element `s - i` is the cell `s` steps along the axis, and that cell is on the board and holds the player |
| Gomoku.HalfWalkStops | src/App.jsx:35-40 | a walk that ends before step 4 ends at a step that leaves the board or does not hold the player, so every matching step is counted |
| Gomoku.HalfWalkCovers | src/App.jsx:32-41 | when steps `i..m` all hold the player, the walk collects at least `m - i + 1` cells |
| Gomoku.AxisLineWinsIff | src/App.jsx:27-57 | on any axis, the scan's count reaches 5 exactly when the new stone is part of an unbroken run of at least five of its player's stones along that axis (both directions) |
| Gomoku.AxisLineIsRun | src/App.jsx:28-55 | a count of at least 5 means the collected steps form such a run |
| Gomoku.RunReachesAxisLine | src/App.jsx:28-55 | any such run makes the count reach 5, although each direction is walked at most 4 steps |
| Gomoku.AxisLineAt | src/App.jsx:28-52 | position `k` of the collected line is the cell at a signed step along the axis: 0 first, then the forward steps, then the backward steps |
| Gomoku.CenterAt | src/App.jsx:28-29 | position 0 of the line is the placed stone itself, step 0 along the axis |
| Gomoku.ForwardAt | src/App.jsx:32-41 | the forward part of the line holds steps 1, 2, ... along the axis |
| Gomoku.BackwardAt | src/App.jsx:44-53 | the backward part of the line holds steps -1, -2, ... along the axis |
| Gomoku.AxisLineShape | src/App.jsx:28-56 | a winning line starts with the new stone's index, has 5 to 9 cells, and its cells are distinct board indices that all hold the winner's stone |
| Gomoku.PlacementNoMissedWin | src/App.jsx:68-72 | if the board had no five in a row and the new stone is part of none, the new board has none anywhere; so scanning only through the new stone finds every win |
| Gomoku.RunShift | src/App.jsx:27-57 | a run through one stone that passes through another stone is a run through that stone too |
| Gomoku.ShiftHolds | src/App.jsx:33-34 | seen from the cell `s0` steps along an axis, step `s0 + s` is step `s` |
| Gomoku.StoneCountPlace | src/App.jsx:68-70 | writing a stone into an empty cell adds one stone for the mover and none for the other player |
| Gomoku.StoneCountEmpty | src/App.jsx:8 | an empty board holds no stones of either player |
| App.CheckWinner | src/App.jsx:14-61 | returns no winner exactly when no axis has five in a row through `index`; otherwise it reports the player at `index` and the line of the first winning axis in the order horizontal, vertical, `\`, `/`; that line starts with `index`, has 5 to 9 distinct in-range cells, and all of them hold the winner's stone |
| App.ScanAxis | src/App.jsx:28-53 | the count and the line one pass produces are the axis line through `index` and its length (forward matches, then backward ones) |
| App.WalkForward | src/App.jsx:32-41 | the forward loop appends exactly the walk along (dx, dy) to the line and counts each cell it appends |
| App.WalkBackward | src/App.jsx:44-53 | the backward loop, with its steps subtracted, appends exactly the walk along (-dx, -dy) and counts each cell it appends |
| App.InitialConsistent | src/App.jsx:8-12 | the initial state satisfies the game invariant |
| App.MoveConsistent | src/App.jsx:68-72 | a non-winning move on a consistent state leaves a consistent state: the game started, the other player to move, no line, no five anywhere, turns still balanced |
| App.WinConsistent | src/App.jsx:68-75 | a winning move on a consistent state leaves a consistent state: the game started, the winner still to move, its line on the board |
| App.Game.constructor | src/App.jsx:8-12 | a new game has an all-empty 900-cell board, blue to move, no winner, an empty line, not started |
| App.Game.HandleClick | src/App.jsx:63-79 | on an occupied cell or with a winner set, no field changes; otherwise exactly the cell at `index` changes, to the mover's stone, and the game is started; there is a winner exactly when some axis has five in a row through `index`; on a win the winner is the mover, who stays to move, and the line is that of the first winning axis, starting at `index`; with no win the other player moves next and the line stays empty; the game invariant is kept |
| App.Game.ResetGame | src/App.jsx:81-87 | from any state, restores the exact initial state: an all-empty board, blue to move, no winner, an empty line, not started |
| Scenarios.HorizontalWin | src/App.jsx:20-57 | blue at row 0, columns 0 to 4, last stone at column 4: the horizontal axis wins first and its line is 4, 3, 2, 1, 0 |
| Scenarios.RowEndForward | src/App.jsx:32-41 | from column 4 of row 0 the forward walk finds column 5 empty and collects nothing |
| Scenarios.RowEndBackward | src/App.jsx:44-53 | from column 4 the backward walk collects 3, 2, 1, 0 and then stops after four steps |
| Scenarios.MiddleStoneWin | src/App.jsx:32-53 | the same row completed at column 2 gives the line 2, 3, 4, 1, 0: forward matches before backward ones, not sorted |
| Scenarios.RowMiddleForward | src/App.jsx:32-41 | from column 2 the forward walk collects 3 and 4 and stops at the empty column 5 |
| Scenarios.RowMiddleBackward | src/App.jsx:44-53 | from column 2 the backward walk collects 1 and 0 and stops at the left edge |
| Scenarios.VerticalWin | src/App.jsx:20-57 | blue at column 0, rows 0 to 4: the horizontal axis collects one stone, and the vertical axis wins with 120, 90, 60, 30, 0 |
| Scenarios.ColumnHorizontal | src/App.jsx:32-53 | through (4, 0) both horizontal walks collect nothing: one neighbour is empty, the other is off the board |
| Scenarios.ColumnEndForward | src/App.jsx:32-41 | from row 4 of column 0 the downward walk finds row 5 empty |
| Scenarios.ColumnEndBackward | src/App.jsx:44-53 | from row 4 the upward walk collects 90, 60, 30, 0 |
| Scenarios.DiagonalWin | src/App.jsx:20-57 | blue at 0, 31, 62, 93, 124: the `\` axis is the first that wins, with 124, 93, 62, 31, 0 |
| Scenarios.DiagonalOtherAxes | src/App.jsx:20-22 | through (4, 4) on the diagonal board, neither the row nor the column has five in a row |
| Scenarios.DiagonalEndForward | src/App.jsx:32-41 | from (4, 4) the `\` forward walk finds (5, 5) empty |
| Scenarios.DiagonalEndBackward | src/App.jsx:44-53 | from (4, 4) the `\` backward walk collects 93, 62, 31, 0 |
| Scenarios.WrapAroundIsNoWin | src/App.jsx:33-35 | on the board with stones at indices 27 to 31, no axis has five in a row through index 29 |
| Scenarios.WrappedRowLine | src/App.jsx:27-53 | the line the row scan collects through index 29 is exactly 29, 28, 27: the right edge stops it before index 30 |
| Scenarios.WrappedRow | src/App.jsx:33-40 | the row through index 29 has no five in a row through it |
| Scenarios.WrappedRowForward | src/App.jsx:33-35 | from column 29 the forward walk leaves the board at once, instead of reaching index 30 in row 1 |
| Scenarios.WrappedRowBackward | src/App.jsx:44-53 | from column 29 the backward walk collects 28 and 27 and stops at the empty column 26 |
| Scenarios.WrappedColumn | src/App.jsx:33-35 | the column through index 29 has no five in a row through it |
| Scenarios.WrappedDiagonals | src/App.jsx:33-35 | neither diagonal through index 29 has five in a row through it |

The invariant `Consistent` holds in every reachable state. It says:

- `gameStarted` holds exactly when the board is not empty.
- A winner comes with a line of 5 to 9 distinct cells, all holding its
  stones, and the winner is `currentPlayer`.
- Without a winner, the line is empty and the board has no five in a row.
- Blue has one stone more than red exactly when blue moved last.

## Left out

- Rendering is not modelled: the JSX markup, the CSS class strings, the trophy
  badges, the winner modal, its `stopPropagation`, and the `App.css` import
  (src/App.jsx:1-2, 89-135). It is presentation only.
- The "New Game" button's `disabled={gameStarted && !winner}`
  (src/App.jsx:100) is not modelled. It is presentation logic over two fields
  the model already exposes.
- React's `useState` machinery (setter batching, re-rendering) is not
  modelled. State changes are sequential field updates. Events are dispatched
  one at a time, so nothing observable is lost.
- Calls with an index outside 0..899 are not modelled. `CheckWinner` and
  `HandleClick` require the index to be in range, because the presentation
  only passes indices of rendered cells.
