/**
 * The Game-of-Life engine (Task3/game_of_life.py): the birth/survival rule, the generation step written
 * into a scratch board while the current board is only read, and the commit of the scratch board.
 */
module GameOfLife {
  import opened GameElements
  import Text
  import opened Options

  // ---------------------------------------------------------------------------------------------
  // The branching neighbour count of this file's own `Cell`

  /** The three rows (or columns) this file's `count_neighbours` reads around i on a ring of n. */
  function BranchIndices(i: int, n: int): (ks: seq<int>)
    requires 0 <= i < n
    ensures |ks| == 3 && forall k :: 0 <= k < 3 ==> 0 <= ks[k]
  {
    if i == 0 then [n - 1, i, i + 1]
    else if i == n - 1 then [i - 1, i, 0]
    else [i - 1, i, i + 1]
  }

  /**
   * `count_neighbours` as this file writes it. Row 0 takes row + 1 as the row below without asking
   * whether row 0 is also the last row, and likewise for columns; numpy then raises IndexError,
   * modelled as None.
   */
  function CountNeighboursBranching(cell: Cell, g: Grid): Option<int>
    requires IsBoard(g) && 0 <= cell.row < |g| && 0 <= cell.col < |g[0]|
  {
    var rows := BranchIndices(cell.row, |g|);
    var cols := BranchIndices(cell.col, |g[0]|);
    if Window(rows, cols, |g|, |g[0]|) then
      var total := WindowSum(g, rows, cols);
      Some(if cell.state == 0 then total else total - 1)
    else
      None
  }

  /** The branching count fails exactly on boards with a single row or a single column. */
  lemma BranchingDefinedIff(cell: Cell, g: Grid)
    requires IsBoard(g) && 0 <= cell.row < |g| && 0 <= cell.col < |g[0]|
    ensures CountNeighboursBranching(cell, g).Some? <==> |g| >= 2 && |g[0]| >= 2
  {
    if |g| == 1 {
      assert BranchIndices(cell.row, |g|)[2] == 1;
    } else if |g[0]| == 1 {
      assert BranchIndices(cell.col, |g[0]|)[2] == 1;
    }
  }

  /** Where it is defined, the branching count is the wrapped count of `game_elements.py`. */
  lemma BranchingAgreesWithWrapped(cell: Cell, g: Grid)
    requires IsBoard(g) && 0 <= cell.row < |g| && 0 <= cell.col < |g[0]|
    requires |g| >= 2 && |g[0]| >= 2
    ensures CountNeighboursBranching(cell, g) == Some(CountNeighbours(cell, g))
  {
    assert BranchIndices(cell.row, |g|) == Around(cell.row, |g|);
    assert BranchIndices(cell.col, |g[0]|) == Around(cell.col, |g[0]|);
  }

  /** On the 1x1 board of one live cell, the branching count raises while the wrapped one gives 8. */
  lemma BranchingFailsOnSingleCell()
    ensures IsMatrix([[1]])
    ensures CountNeighboursBranching(Cell(0, 0, 1), FromStates([[1]])) == None
    ensures CountNeighbours(Cell(0, 0, 1), FromStates([[1]])) == 8
  {
    var g: Grid := FromStates([[1]]);
    assert g[0][0].state == 1;
    assert BranchIndices(0, 1) == [0, 0, 1];
  }

  // ---------------------------------------------------------------------------------------------
  // The rule and one generation

  /** `apply_game_rules`: the state written for a cell of the given state and neighbour count. */
  function NextState(state: int, n: int): (s: int)
    ensures s == 0 || s == 1
  {
    if (n == 2 || n == 3) && state == 1 then 1
    else if state == 0 && n == 3 then 1
    else 0
  }

  /**
   * For 0/1 states the rule is Conway's B3/S23: a cell is alive next exactly when it has three live
   * neighbours, or two and is alive now.
   */
  lemma NextStateIsB3S23(state: int, n: int)
    requires state == 0 || state == 1
    ensures NextState(state, n) == (if n == 3 || (n == 2 && state == 1) then 1 else 0)
  {
  }

  /** A state other than 0 and 1 always yields a dead cell. */
  lemma NextStateOfOtherState(state: int, n: int)
    requires state != 0 && state != 1
    ensures NextState(state, n) == 0
  {
  }

  /**
   * The scratch board `compute_iter` fills: each cell keeps its position and takes the rule's state
   * for its own state and its neighbour count in the current board g.
   */
  function NextGeneration(g: Grid): (h: Grid)
    requires IsBoard(g) && Placed(g)
    ensures IsBoard(h) && Placed(h) && Binary(h) && |h| == |g| && |h[0]| == |g[0]|
  {
    seq(|g|, r requires 0 <= r < |g| =>
      seq(|g[0]|, c requires 0 <= c < |g[0]| =>
        g[r][c].(state := NextState(g[r][c].state, CountNeighbours(g[r][c], g)))))
  }

  /**
   * On a 0/1 board one generation is Conway's Life on the torus: a cell lives next exactly when three
   * of its eight toroidal neighbours live, or two do and it lives now.
   */
  lemma NextGenerationIsLife(g: Grid, r: int, c: int)
    requires IsBoard(g) && Placed(g) && Binary(g) && 0 <= r < |g| && 0 <= c < |g[0]|
    ensures |NextGeneration(g)| == |g| && |NextGeneration(g)[r]| == |g[0]|
    ensures var n := RingSum(g, r, c);
            NextGeneration(g)[r][c] == Cell(r, c, if n == 3 || (n == 2 && g[r][c].state == 1) then 1 else 0)
  {
    CountNeighboursExcludesSelf(g[r][c], g);
    NextStateIsB3S23(g[r][c].state, RingSum(g, r, c));
  }

  /** `n` generations in a row. */
  function Generations(g: Grid, n: nat): (h: Grid)
    requires IsBoard(g) && Placed(g)
    ensures IsBoard(h) && Placed(h) && |h| == |g| && |h[0]| == |g[0]|
    decreases n
  {
    if n == 0 then g else Generations(NextGeneration(g), n - 1)
  }

  /** The vertical blinker of the engine's unit test ... */
  const VerticalBlinker: seq<seq<int>> :=
    [[0, 0, 0, 0, 0],
     [0, 0, 1, 0, 0],
     [0, 0, 1, 0, 0],
     [0, 0, 1, 0, 0],
     [0, 0, 0, 0, 0]]

  /** ... and the horizontal one it turns into. */
  const HorizontalBlinker: seq<seq<int>> :=
    [[0, 0, 0, 0, 0],
     [0, 0, 0, 0, 0],
     [0, 1, 1, 1, 0],
     [0, 0, 0, 0, 0],
     [0, 0, 0, 0, 0]]

  /**
   * The neighbour count of position (r, c) read off a state matrix, as `CountNeighbours` takes it;
   * only a helper of the blinker proof, which works on the state matrices rather than on cells.
   */
  function MatrixCount(m: seq<seq<int>>, r: int, c: int): int
    requires IsMatrix(m) && 0 <= r < |m| && 0 <= c < |m[0]|
  {
    var rows, cols := Around(r, |m|), Around(c, |m[0]|);
    var total := m[rows[0]][cols[0]] + m[rows[0]][cols[1]] + m[rows[0]][cols[2]] +
                 m[rows[1]][cols[0]] + m[rows[1]][cols[1]] + m[rows[1]][cols[2]] +
                 m[rows[2]][cols[0]] + m[rows[2]][cols[1]] + m[rows[2]][cols[2]];
    if m[r][c] == 0 then total else total - 1
  }

  /** One generation of the board built from a state matrix, read cell by cell off the matrix. */
  lemma NextOfStates(m: seq<seq<int>>, r: int, c: int)
    requires IsMatrix(m) && 0 <= r < |m| && 0 <= c < |m[0]|
    ensures States(NextGeneration(FromStates(m)))[r][c] == NextState(m[r][c], MatrixCount(m, r, c))
  {
    var g := FromStates(m);
    var rows, cols := Around(r, |m|), Around(c, |m[0]|);
    assert Window(rows, cols, |g|, |g[0]|);
    assert CountNeighbours(g[r][c], g) == MatrixCount(m, r, c);
  }

  // The row lemmas below hold without their bodies too; the per-cell `NextOfStates` calls and the
  // literal counts are kept because they keep each row within the solver's resource budget.

  /** The states of row 0 of the blinker's next generation, cell by cell. */
  lemma BlinkerRow0()
    ensures IsMatrix(VerticalBlinker) && IsMatrix(HorizontalBlinker)
    ensures States(NextGeneration(FromStates(VerticalBlinker)))[0] == HorizontalBlinker[0]
  {
    var v := VerticalBlinker;
    NextOfStates(v, 0, 0);
    NextOfStates(v, 0, 1);
    NextOfStates(v, 0, 2);
    NextOfStates(v, 0, 3);
    NextOfStates(v, 0, 4);
    assert MatrixCount(v, 0, 0) == 0;
    assert MatrixCount(v, 0, 1) == 1;
    assert MatrixCount(v, 0, 2) == 1;
    assert MatrixCount(v, 0, 3) == 1;
    assert MatrixCount(v, 0, 4) == 0;
  }

  /** The states of row 1 of the blinker's next generation, cell by cell. */
  lemma BlinkerRow1()
    ensures IsMatrix(VerticalBlinker) && IsMatrix(HorizontalBlinker)
    ensures States(NextGeneration(FromStates(VerticalBlinker)))[1] == HorizontalBlinker[1]
  {
    var v := VerticalBlinker;
    NextOfStates(v, 1, 0);
    NextOfStates(v, 1, 1);
    NextOfStates(v, 1, 2);
    NextOfStates(v, 1, 3);
    NextOfStates(v, 1, 4);
    assert MatrixCount(v, 1, 0) == 0;
    assert MatrixCount(v, 1, 1) == 2;
    assert MatrixCount(v, 1, 2) == 1;
    assert MatrixCount(v, 1, 3) == 2;
    assert MatrixCount(v, 1, 4) == 0;
  }

  /** The states of row 2 of the blinker's next generation, cell by cell. */
  lemma BlinkerRow2()
    ensures IsMatrix(VerticalBlinker) && IsMatrix(HorizontalBlinker)
    ensures States(NextGeneration(FromStates(VerticalBlinker)))[2] == HorizontalBlinker[2]
  {
    var v := VerticalBlinker;
    NextOfStates(v, 2, 0);
    NextOfStates(v, 2, 1);
    NextOfStates(v, 2, 2);
    NextOfStates(v, 2, 3);
    NextOfStates(v, 2, 4);
    assert MatrixCount(v, 2, 0) == 0;
    assert MatrixCount(v, 2, 1) == 3;
    assert MatrixCount(v, 2, 2) == 2;
    assert MatrixCount(v, 2, 3) == 3;
    assert MatrixCount(v, 2, 4) == 0;
  }

  /** The states of row 3 of the blinker's next generation, cell by cell. */
  lemma BlinkerRow3()
    ensures IsMatrix(VerticalBlinker) && IsMatrix(HorizontalBlinker)
    ensures States(NextGeneration(FromStates(VerticalBlinker)))[3] == HorizontalBlinker[3]
  {
    var v := VerticalBlinker;
    NextOfStates(v, 3, 0);
    NextOfStates(v, 3, 1);
    NextOfStates(v, 3, 2);
    NextOfStates(v, 3, 3);
    NextOfStates(v, 3, 4);
    assert MatrixCount(v, 3, 0) == 0;
    assert MatrixCount(v, 3, 1) == 2;
    assert MatrixCount(v, 3, 2) == 1;
    assert MatrixCount(v, 3, 3) == 2;
    assert MatrixCount(v, 3, 4) == 0;
  }

  /** The states of row 4 of the blinker's next generation, cell by cell. */
  lemma BlinkerRow4()
    ensures IsMatrix(VerticalBlinker) && IsMatrix(HorizontalBlinker)
    ensures States(NextGeneration(FromStates(VerticalBlinker)))[4] == HorizontalBlinker[4]
  {
    var v := VerticalBlinker;
    NextOfStates(v, 4, 0);
    NextOfStates(v, 4, 1);
    NextOfStates(v, 4, 2);
    NextOfStates(v, 4, 3);
    NextOfStates(v, 4, 4);
    assert MatrixCount(v, 4, 0) == 0;
    assert MatrixCount(v, 4, 1) == 1;
    assert MatrixCount(v, 4, 2) == 1;
    assert MatrixCount(v, 4, 3) == 1;
    assert MatrixCount(v, 4, 4) == 0;
  }

  /** One generation turns the vertical blinker into the horizontal one. */
  lemma BlinkerTurns()
    ensures IsMatrix(VerticalBlinker) && IsMatrix(HorizontalBlinker)
    ensures States(NextGeneration(FromStates(VerticalBlinker))) == HorizontalBlinker
    ensures NextGeneration(FromStates(VerticalBlinker)) == FromStates(HorizontalBlinker)
  {
    BlinkerRow0();
    BlinkerRow1();
    BlinkerRow2();
    BlinkerRow3();
    BlinkerRow4();
    FromStatesOfStates(NextGeneration(FromStates(VerticalBlinker)));
  }

  // ---------------------------------------------------------------------------------------------
  // The engine

  /** `GameEngine`: the current board, the scratch board and the refresh rate. */
  class GameEngine {
    var cellsBoard: array2<Cell>
    var tempBoard: array2<Cell>
    var refreshRate: int

    /** Two distinct boards of one shape, each cell at its own position. */
    ghost predicate Valid()
      reads this, cellsBoard, tempBoard
    {
      cellsBoard != tempBoard && WellFormed(cellsBoard) && WellFormed(tempBoard) &&
      cellsBoard.Length0 == tempBoard.Length0 && cellsBoard.Length1 == tempBoard.Length1
    }

    /**
     * The board from the initial pose and a deep copy of it as the scratch board; the pose and the
     * refresh rate are given instead of read from the configuration file.
     */
    constructor (initialPose: seq<seq<int>>, refreshRate: int)
      requires IsMatrix(initialPose)
      ensures Valid() && fresh(cellsBoard) && fresh(tempBoard)
      ensures Cells(cellsBoard) == FromStates(initialPose) && Cells(tempBoard) == Cells(cellsBoard)
      ensures this.refreshRate == refreshRate
    {
      var current := NewCells(initialPose);
      var scratch := CopyCells(current);
      cellsBoard, tempBoard := current, scratch;
      this.refreshRate := refreshRate;
    }

    /**
     * `apply_game_rules`: writes the rule's state into the scratch cell at the cell's position and
     * nowhere else; the current board is not touched.
     */
    method ApplyGameRules(neighboursCount: int, cell: Cell)
      requires Valid() && 0 <= cell.row < tempBoard.Length0 && 0 <= cell.col < tempBoard.Length1
      modifies tempBoard
      ensures Valid() && unchanged(cellsBoard)
      ensures tempBoard[cell.row, cell.col] ==
              old(tempBoard[cell.row, cell.col]).(state := NextState(cell.state, neighboursCount))
      ensures forall r, c ::
                (0 <= r < tempBoard.Length0 && 0 <= c < tempBoard.Length1 && (r != cell.row || c != cell.col)) ==>
                tempBoard[r, c] == old(tempBoard[r, c])
    {
      if (neighboursCount == 2 || neighboursCount == 3) && cell.state == 1 {
        tempBoard[cell.row, cell.col] := tempBoard[cell.row, cell.col].(state := 1);
      } else if cell.state == 0 && neighboursCount == 3 {
        tempBoard[cell.row, cell.col] := tempBoard[cell.row, cell.col].(state := 1);
      } else {
        tempBoard[cell.row, cell.col] := tempBoard[cell.row, cell.col].(state := 0);
      }
    }

    /**
     * The inner loop of `compute_iter` for one row: the columns left to right, each scratch cell of the
     * row set to the next generation's, the other rows and the current board untouched.
     */
    method ComputeRow(row: int)
      requires Valid() && 0 <= row < cellsBoard.Length0
      requires IsBoard(Cells(cellsBoard)) && Placed(Cells(cellsBoard))
      modifies tempBoard
      ensures Valid() && unchanged(cellsBoard)
      ensures forall c :: 0 <= c < tempBoard.Length1 ==> tempBoard[row, c] == NextGeneration(Cells(cellsBoard))[row][c]
      ensures forall r, c :: 0 <= r < tempBoard.Length0 && r != row && 0 <= c < tempBoard.Length1 ==>
                tempBoard[r, c] == old(tempBoard[r, c])
    {
      ghost var current := Cells(cellsBoard);
      ghost var next := NextGeneration(current);
      var width := cellsBoard.Length1;
      var col := 0;
      while col < width
        invariant 0 <= col <= width
        invariant Valid() && Cells(cellsBoard) == current
        invariant forall c :: 0 <= c < col ==> tempBoard[row, c] == next[row][c]
        invariant forall r, c :: 0 <= r < tempBoard.Length0 && 0 <= c < width && (r != row || c >= col) ==>
                    tempBoard[r, c] == old(tempBoard[r, c])
      {
        var currentCell := cellsBoard[row, col];
        var neighboursCount := CountNeighbours(currentCell, Cells(cellsBoard));
        assert next[row][col] == tempBoard[row, col].(state := NextState(currentCell.state, neighboursCount));
        ApplyGameRules(neighboursCount, currentCell);
        col := col + 1;
      }
    }

    /**
     * `compute_iter`: visits the positions row by row, each once, and leaves in the scratch board the
     * next generation of the current board, which the pass only reads.
     */
    method ComputeIter()
      requires Valid()
      modifies tempBoard
      ensures Valid() && unchanged(cellsBoard)
      ensures Cells(tempBoard) == NextGeneration(Cells(cellsBoard))
    {
      WellFormedCells(cellsBoard);
      ghost var current := Cells(cellsBoard);
      ghost var next := NextGeneration(current);
      var height, width := cellsBoard.Length0, cellsBoard.Length1;
      var row := 0;
      while row < height
        invariant 0 <= row <= height
        invariant Valid() && Cells(cellsBoard) == current
        invariant forall r, c :: 0 <= r < row && 0 <= c < width ==> tempBoard[r, c] == next[r][c]
        invariant forall r, c :: row <= r < height && 0 <= c < width ==> tempBoard[r, c] == old(tempBoard[r, c])
      {
        ComputeRow(row);
        row := row + 1;
      }
      CellsEqual(tempBoard, next);
    }

    /** `update_board`: the current board becomes a fresh deep copy of the scratch board. */
    method UpdateBoard()
      requires Valid()
      modifies this
      ensures Valid() && fresh(cellsBoard)
      ensures Cells(cellsBoard) == old(Cells(tempBoard))
      ensures tempBoard == old(tempBoard) && refreshRate == old(refreshRate)
    {
      cellsBoard := CopyCells(tempBoard);
    }

    /** One pass of `run`'s loop without its timing, logging and sleep: compute, then commit. */
    method Iterate()
      requires Valid()
      modifies this, tempBoard
      ensures Valid() && tempBoard == old(tempBoard) && refreshRate == old(refreshRate)
      ensures WellFormed(old(cellsBoard)) && IsBoard(old(Cells(cellsBoard))) && Placed(old(Cells(cellsBoard)))
      ensures Cells(cellsBoard) == NextGeneration(old(Cells(cellsBoard)))
      ensures Cells(tempBoard) == Cells(cellsBoard)
    {
      WellFormedCells(cellsBoard);
      ComputeIter();
      UpdateBoard();
    }

    /** `run` stopped after `generations` passes: the current board has advanced that many generations. */
    method Run(generations: nat)
      requires Valid()
      modifies this, tempBoard
      ensures Valid() && tempBoard == old(tempBoard) && refreshRate == old(refreshRate)
      ensures WellFormed(old(cellsBoard)) && IsBoard(old(Cells(cellsBoard))) && Placed(old(Cells(cellsBoard)))
      ensures Cells(cellsBoard) == Generations(old(Cells(cellsBoard)), generations)
    {
      WellFormedCells(cellsBoard);
      ghost var start := Cells(cellsBoard);
      var i := 0;
      while i < generations
        invariant 0 <= i <= generations
        invariant Valid() && tempBoard == old(tempBoard) && refreshRate == old(refreshRate)
        invariant IsBoard(Cells(cellsBoard)) && Placed(Cells(cellsBoard))
        invariant Generations(start, generations) == Generations(Cells(cellsBoard), generations - i)
      {
        Iterate();
        WellFormedCells(cellsBoard);
        i := i + 1;
      }
    }
  }

  /** The horizontal blinker's text splits into its five row texts. */
  lemma BlinkerLines()
    ensures Text.Split(MatrixText(HorizontalBlinker), '\n') == RowTexts(HorizontalBlinker)
  {
    SplitMatrixText(HorizontalBlinker);
  }

  /**
   * The engine's unit test: one `compute_iter` on the vertical blinker leaves a scratch board whose
   * text is that of the horizontal blinker, and the current board still holds the vertical one; the
   * lines the test compares follow by `BlinkerLines`.
   */
  method BlinkerComputeIter() returns (scratchText: string, current: seq<seq<int>>)
    ensures scratchText == MatrixText(HorizontalBlinker)
    ensures current == VerticalBlinker
  {
    BlinkerTurns();
    StatesOfFromStates(VerticalBlinker);
    var engine := new GameEngine(VerticalBlinker, 1);
    engine.ComputeIter();
    scratchText := MatrixText(States(Cells(engine.tempBoard)));
    current := States(Cells(engine.cellsBoard));
  }
}
