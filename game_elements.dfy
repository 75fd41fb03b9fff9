/**
 * Cells and boards of the Game of Life (Task3/game_elements.py): the toroidal neighbour count,
 * the board built from a 0/1 matrix, its text snapshot and its replacement by a copy of another board.
 */
module GameElements {
  import Text

  /** A board position and its state: 1 is alive, 0 is dead. */
  datatype Cell = Cell(row: int, col: int, state: int)

  /** The value held by a board: its cells, row by row. */
  type Grid = seq<seq<Cell>>

  /** A non-empty rectangular matrix of states, the shape a board is built from. */
  predicate IsMatrix(m: seq<seq<int>>) {
    |m| >= 1 && |m[0]| >= 1 && forall r :: 0 <= r < |m| ==> |m[r]| == |m[0]|
  }

  /** A non-empty rectangular grid. */
  predicate IsBoard(g: Grid) {
    |g| >= 1 && |g[0]| >= 1 && forall r :: 0 <= r < |g| ==> |g[r]| == |g[0]|
  }

  /** Every cell carries the coordinates of the position that holds it. */
  predicate Placed(g: Grid)
    requires IsBoard(g)
  {
    forall r, c :: 0 <= r < |g| && 0 <= c < |g[0]| ==> g[r][c].row == r && g[r][c].col == c
  }

  /** Every state is 0 or 1. */
  predicate Binary(g: Grid)
    requires IsBoard(g)
  {
    forall r, c :: 0 <= r < |g| && 0 <= c < |g[0]| ==> g[r][c].state == 0 || g[r][c].state == 1
  }

  /** The states of a grid, as the matrix `Board.__repr__` lists. */
  function States(g: Grid): (m: seq<seq<int>>)
    requires IsBoard(g)
    ensures IsMatrix(m) && |m| == |g| && |m[0]| == |g[0]|
    ensures forall r, c :: 0 <= r < |g| && 0 <= c < |g[0]| ==> m[r][c] == g[r][c].state
  {
    seq(|g|, r requires 0 <= r < |g| => seq(|g[0]|, c requires 0 <= c < |g[0]| => g[r][c].state))
  }

  /** The cells of `Board(m)`: the cell at (r, c) has row r, column c and the state m[r][c]. */
  function FromStates(m: seq<seq<int>>): (g: Grid)
    requires IsMatrix(m)
    ensures IsBoard(g) && Placed(g) && |g| == |m| && |g[0]| == |m[0]|
    ensures forall r, c :: 0 <= r < |m| && 0 <= c < |m[0]| ==> g[r][c] == Cell(r, c, m[r][c])
  {
    seq(|m|, r requires 0 <= r < |m| => seq(|m[0]|, c requires 0 <= c < |m[0]| => Cell(r, c, m[r][c])))
  }

  /** Building a board from a matrix and listing its states gives the matrix back. */
  lemma StatesOfFromStates(m: seq<seq<int>>)
    requires IsMatrix(m)
    ensures States(FromStates(m)) == m
  {
    var s := States(FromStates(m));
    assert forall r :: 0 <= r < |m| ==> s[r] == m[r];
  }

  /** A placed board is determined by its states: it is the board built from them. */
  lemma FromStatesOfStates(g: Grid)
    requires IsBoard(g) && Placed(g)
    ensures FromStates(States(g)) == g
  {
    var h := FromStates(States(g));
    assert forall r :: 0 <= r < |g| ==> h[r] == g[r];
  }

  // ---------------------------------------------------------------------------------------------
  // Periodic boundaries and the neighbour count

  /** The index before i on a ring of n positions: the row above, or the column to the left. */
  function WrapBefore(i: int, n: int): (j: int)
    requires 0 <= i < n
    ensures 0 <= j < n && j == (i - 1) % n
  {
    if i == 0 then n - 1 else i - 1
  }

  /** The index after i on a ring of n positions: the row below, or the column to the right. */
  function WrapAfter(i: int, n: int): (j: int)
    requires 0 <= i < n
    ensures 0 <= j < n && j == (i + 1) % n
  {
    if i == n - 1 then 0 else i + 1
  }

  /** The three indices i - 1, i, i + 1 around i, wrapped. */
  function Around(i: int, n: int): (ks: seq<int>)
    requires 0 <= i < n
    ensures |ks| == 3 && forall k :: 0 <= k < 3 ==> 0 <= ks[k] < n
  {
    [WrapBefore(i, n), i, WrapAfter(i, n)]
  }

  /** Three valid indices into a board of the given size. */
  predicate Window(rows: seq<int>, cols: seq<int>, height: int, width: int) {
    |rows| == 3 && |cols| == 3 &&
    (forall k :: 0 <= k < 3 ==> 0 <= rows[k] < height) &&
    (forall k :: 0 <= k < 3 ==> 0 <= cols[k] < width)
  }

  /** The sum of the states at rows x cols, the nine entries of the 3x3 window. */
  function WindowSum(g: Grid, rows: seq<int>, cols: seq<int>): int
    requires IsBoard(g) && Window(rows, cols, |g|, |g[0]|)
  {
    g[rows[0]][cols[0]].state + g[rows[0]][cols[1]].state + g[rows[0]][cols[2]].state +
    g[rows[1]][cols[0]].state + g[rows[1]][cols[1]].state + g[rows[1]][cols[2]].state +
    g[rows[2]][cols[0]].state + g[rows[2]][cols[1]].state + g[rows[2]][cols[2]].state
  }

  /**
   * `Cell.count_neighbours`: the window around the cell's position (itself included), less one when
   * the cell itself is not dead. The cell's own state is the one it carries, not the board's.
   */
  function CountNeighbours(cell: Cell, g: Grid): int
    requires IsBoard(g) && 0 <= cell.row < |g| && 0 <= cell.col < |g[0]|
  {
    var total := WindowSum(g, Around(cell.row, |g|), Around(cell.col, |g[0]|));
    if cell.state == 0 then total else total - 1
  }

  /** The state at (r, c) read on the torus: indices are taken modulo the board's shape. */
  function TorusState(g: Grid, r: int, c: int): int
    requires IsBoard(g)
  {
    g[r % |g|][c % |g[0]|].state
  }

  /** The textbook neighbour sum: the eight surrounding positions of (r, c) on the torus, centre left out. */
  function RingSum(g: Grid, r: int, c: int): int
    requires IsBoard(g)
  {
    TorusState(g, r - 1, c - 1) + TorusState(g, r - 1, c) + TorusState(g, r - 1, c + 1) +
    TorusState(g, r, c - 1) + TorusState(g, r, c + 1) +
    TorusState(g, r + 1, c - 1) + TorusState(g, r + 1, c) + TorusState(g, r + 1, c + 1)
  }

  /**
   * The window-minus-self count is the eight-neighbour sum on the torus, plus the board's state at the
   * position, minus one when the cell is not dead.
   */
  lemma CountIsRingSum(cell: Cell, g: Grid)
    requires IsBoard(g) && 0 <= cell.row < |g| && 0 <= cell.col < |g[0]|
    ensures CountNeighbours(cell, g) ==
            RingSum(g, cell.row, cell.col) + g[cell.row][cell.col].state - (if cell.state == 0 then 0 else 1)
  {
    var r, c, R, C := cell.row, cell.col, |g|, |g[0]|;
    var r1, r3, c1, c3 := WrapBefore(r, R), WrapAfter(r, R), WrapBefore(c, C), WrapAfter(c, C);
    assert CountNeighbours(cell, g) == WindowSum(g, [r1, r, r3], [c1, c, c3]) - (if cell.state == 0 then 0 else 1);
    RingSumWrapped(g, r, c);
  }

  /** The torus reads of the ring sum land on the wrapped indices. */
  lemma RingSumWrapped(g: Grid, r: int, c: int)
    requires IsBoard(g) && 0 <= r < |g| && 0 <= c < |g[0]|
    ensures var r1, r3, c1, c3 := WrapBefore(r, |g|), WrapAfter(r, |g|), WrapBefore(c, |g[0]|), WrapAfter(c, |g[0]|);
            RingSum(g, r, c) + g[r][c].state == WindowSum(g, [r1, r, r3], [c1, c, c3])
  {
    var R, C := |g|, |g[0]|;
    var r1, r3, c1, c3 := WrapBefore(r, R), WrapAfter(r, R), WrapBefore(c, C), WrapAfter(c, C);
    InRangeMod(r, R);
    InRangeMod(c, C);
    assert TorusState(g, r - 1, c - 1) == g[r1][c1].state by { OnTorus(g, r - 1, c - 1, r1, c1); }
    assert TorusState(g, r - 1, c) == g[r1][c].state by { OnTorus(g, r - 1, c, r1, c); }
    assert TorusState(g, r - 1, c + 1) == g[r1][c3].state by { OnTorus(g, r - 1, c + 1, r1, c3); }
    assert TorusState(g, r, c - 1) == g[r][c1].state by { OnTorus(g, r, c - 1, r, c1); }
    assert TorusState(g, r, c + 1) == g[r][c3].state by { OnTorus(g, r, c + 1, r, c3); }
    assert TorusState(g, r + 1, c - 1) == g[r3][c1].state by { OnTorus(g, r + 1, c - 1, r3, c1); }
    assert TorusState(g, r + 1, c) == g[r3][c].state by { OnTorus(g, r + 1, c, r3, c); }
    assert TorusState(g, r + 1, c + 1) == g[r3][c3].state by { OnTorus(g, r + 1, c + 1, r3, c3); }
  }

  /** An index already on the ring is its own remainder. */
  lemma InRangeMod(i: int, n: int)
    requires 0 <= i < n
    ensures i % n == i
  {
  }

  lemma OnTorus(g: Grid, r: int, c: int, i: int, j: int)
    requires IsBoard(g) && 0 <= i < |g| && 0 <= j < |g[0]| && i == r % |g| && j == c % |g[0]|
    ensures TorusState(g, r, c) == g[i][j].state
  {
  }

  lemma TorusStateBinary(g: Grid, r: int, c: int)
    requires IsBoard(g) && Binary(g)
    ensures 0 <= TorusState(g, r, c) <= 1
  {
    assert 0 <= r % |g| < |g| && 0 <= c % |g[0]| < |g[0]|;
  }

  /**
   * For a cell that agrees with the board and a board of 0/1 states, the count is exactly the number of
   * live cells among the eight neighbours on the torus, so it lies in [0, 8] for every board shape.
   */
  lemma CountNeighboursExcludesSelf(cell: Cell, g: Grid)
    requires IsBoard(g) && Binary(g) && 0 <= cell.row < |g| && 0 <= cell.col < |g[0]|
    requires cell.state == g[cell.row][cell.col].state
    ensures CountNeighbours(cell, g) == RingSum(g, cell.row, cell.col)
    ensures 0 <= CountNeighbours(cell, g) <= 8
  {
    CountIsRingSum(cell, g);
    var r, c := cell.row, cell.col;
    TorusStateBinary(g, r - 1, c - 1);
    TorusStateBinary(g, r - 1, c);
    TorusStateBinary(g, r - 1, c + 1);
    TorusStateBinary(g, r, c - 1);
    TorusStateBinary(g, r, c + 1);
    TorusStateBinary(g, r + 1, c - 1);
    TorusStateBinary(g, r + 1, c);
    TorusStateBinary(g, r + 1, c + 1);
  }

  /** The matrix of the neighbour-count unit test. */
  const CountPattern: seq<seq<int>> :=
    [[1, 0, 0, 0, 0],
     [0, 0, 1, 0, 0],
     [0, 0, 1, 0, 0],
     [0, 1, 1, 0, 0],
     [1, 0, 0, 0, 1]]

  /** The hand-computed counts of that test: corner (0, 0) sees 2; (2, 2) and (4, 0) see 3. */
  lemma CountPatternExample()
    ensures IsMatrix(CountPattern)
    ensures CountNeighbours(Cell(0, 0, 1), FromStates(CountPattern)) == 2
    ensures CountNeighbours(Cell(2, 2, 1), FromStates(CountPattern)) == 3
    ensures CountNeighbours(Cell(4, 0, 1), FromStates(CountPattern)) == 3
  {
    var g: Grid := FromStates(CountPattern);
    assert forall r: int, c: int :: 0 <= r < 5 && 0 <= c < 5 ==> g[r][c].state == CountPattern[r][c];
  }

  // ---------------------------------------------------------------------------------------------
  // Text snapshot: `Board.__repr__`

  /** The items of a Python list of ints as `str` joins them: "a, b, c". */
  function ItemsText(xs: seq<int>): string {
    if |xs| == 0 then ""
    else if |xs| == 1 then Text.IntText(xs[0])
    else Text.IntText(xs[0]) + ", " + ItemsText(xs[1..])
  }

  /** `str` of a Python list of ints: "[a, b, c]". */
  function RowText(xs: seq<int>): string {
    "[" + ItemsText(xs) + "]"
  }

  /** The rows' texts joined by newlines. */
  function MatrixText(m: seq<seq<int>>): string {
    if |m| == 0 then ""
    else if |m| == 1 then RowText(m[0])
    else RowText(m[0]) + "\n" + MatrixText(m[1..])
  }

  predicate BinaryRow(xs: seq<int>) {
    forall k :: 0 <= k < |xs| ==> xs[k] == 0 || xs[k] == 1
  }

  /** The items of a 0/1 row are one character each, three characters apart. */
  lemma {:induction false} ItemsTextLayout(xs: seq<int>)
    requires |xs| >= 1 && BinaryRow(xs)
    ensures |ItemsText(xs)| == 3 * |xs| - 2
    ensures forall k :: 0 <= k < |xs| ==> ItemsText(xs)[3 * k] == Text.Digit(xs[k])
  {
    Text.DigitText(xs[0]);
    if |xs| > 1 {
      ItemsTextLayout(xs[1..]);
      var t := ItemsText(xs[1..]);
      assert ItemsText(xs) == [Text.Digit(xs[0])] + ", " + t;
      forall k | 1 <= k < |xs|
        ensures ItemsText(xs)[3 * k] == Text.Digit(xs[k])
      {
        assert ItemsText(xs)[3 * k] == t[3 * (k - 1)];
        assert xs[1..][k - 1] == xs[k];
      }
    }
  }

  /** The k-th item of a 0/1 row's text sits right after its bracket, three characters apart. */
  lemma RowTextAt(xs: seq<int>, k: int)
    requires |xs| >= 1 && BinaryRow(xs) && 0 <= k < |xs|
    ensures |RowText(xs)| == 3 * |xs| && RowText(xs)[1 + 3 * k] == Text.Digit(xs[k])
  {
    ItemsTextLayout(xs);
    var t := ItemsText(xs);
    assert RowText(xs) == "[" + t + "]";
    assert RowText(xs)[1 + 3 * k] == t[3 * k];
  }

  /** Two 0/1 rows of one length have the same text only when they are equal. */
  lemma RowTextInjective(xs: seq<int>, ys: seq<int>)
    requires |xs| == |ys| >= 1 && BinaryRow(xs) && BinaryRow(ys)
    requires RowText(xs) == RowText(ys)
    ensures xs == ys
  {
    forall k | 0 <= k < |xs|
      ensures xs[k] == ys[k]
    {
      RowTextAt(xs, k);
      RowTextAt(ys, k);
    }
  }

  predicate BinaryMatrix(m: seq<seq<int>>) {
    forall r :: 0 <= r < |m| ==> BinaryRow(m[r])
  }

  /**
   * The snapshot text tells 0/1 boards of one shape apart: two such state matrices have the same text
   * exactly when they are equal, so comparing snapshots, as the unit test does, compares the boards.
   */
  lemma {:induction false} MatrixTextInjective(m1: seq<seq<int>>, m2: seq<seq<int>>)
    requires IsMatrix(m1) && IsMatrix(m2) && |m1| == |m2| && |m1[0]| == |m2[0]|
    requires BinaryMatrix(m1) && BinaryMatrix(m2)
    ensures MatrixText(m1) == MatrixText(m2) <==> m1 == m2
    decreases |m1|
  {
    if MatrixText(m1) == MatrixText(m2) {
      if |m1| == 1 {
        RowTextInjective(m1[0], m2[0]);
        assert m1 == [m1[0]] && m2 == [m2[0]];
      } else {
        MatrixTextFirstRow(m1);
        MatrixTextFirstRow(m2);
        RowTextInjective(m1[0], m2[0]);
        MatrixTextInjective(m1[1..], m2[1..]);
        assert m1 == [m1[0]] + m1[1..] && m2 == [m2[0]] + m2[1..];
      }
    }
  }

  /** The text of a 0/1 matrix of several rows: the first row's text, a newline, then the other rows'. */
  lemma MatrixTextFirstRow(m: seq<seq<int>>)
    requires IsMatrix(m) && |m| > 1 && BinaryMatrix(m)
    ensures |RowText(m[0])| == 3 * |m[0]| && |MatrixText(m)| > 3 * |m[0]|
    ensures MatrixText(m)[..3 * |m[0]|] == RowText(m[0]) && MatrixText(m)[3 * |m[0]| + 1..] == MatrixText(m[1..])
    ensures IsMatrix(m[1..]) && |m[1..][0]| == |m[0]| && BinaryMatrix(m[1..])
  {
    var w := |m[0]|;
    RowTextAt(m[0], 0);
    var t, rest := RowText(m[0]), MatrixText(m[1..]);
    assert MatrixText(m) == t + "\n" + rest;
    assert (t + "\n" + rest)[..3 * w] == t;
    assert (t + "\n" + rest)[3 * w + 1..] == rest;
    assert BinaryMatrix(m[1..]) by {
      forall r | 0 <= r < |m[1..]| ensures BinaryRow(m[1..][r]) { assert m[1..][r] == m[r + 1]; }
    }
  }

  /** The rows' texts, one Python list per row. */
  function RowTexts(m: seq<seq<int>>): (ts: seq<string>)
    ensures |ts| == |m| && forall r :: 0 <= r < |m| ==> ts[r] == RowText(m[r])
  {
    seq(|m|, r requires 0 <= r < |m| => RowText(m[r]))
  }

  /** The items of a list of ints hold no newline. */
  lemma {:induction false} ItemsTextHasNoNewline(xs: seq<int>)
    ensures '\n' !in ItemsText(xs)
    decreases |xs|
  {
    if |xs| >= 1 {
      Text.IntTextChars(xs[0]);
      assert '\n' !in Text.IntText(xs[0]);
      if |xs| > 1 {
        ItemsTextHasNoNewline(xs[1..]);
      }
    }
  }

  /** The text of a row is one line. */
  lemma RowTextHasNoNewline(xs: seq<int>)
    ensures '\n' !in RowText(xs)
  {
    ItemsTextHasNoNewline(xs);
  }

  /** The snapshot is the rows' texts joined by newlines. */
  lemma {:induction false} MatrixTextIsJoin(m: seq<seq<int>>)
    requires |m| >= 1
    ensures MatrixText(m) == Text.Join(RowTexts(m), '\n')
    decreases |m|
  {
    if |m| > 1 {
      MatrixTextIsJoin(m[1..]);
      assert RowTexts(m)[1..] == RowTexts(m[1..]);
    }
  }

  /** Splitting the snapshot at its newlines gives back one list text per row, as the unit test reads it. */
  lemma SplitMatrixText(m: seq<seq<int>>)
    requires |m| >= 1
    ensures Text.Split(MatrixText(m), '\n') == RowTexts(m)
  {
    MatrixTextIsJoin(m);
    forall r | 0 <= r < |m|
      ensures '\n' !in RowTexts(m)[r]
    {
      RowTextHasNoNewline(m[r]);
    }
    Text.SplitJoin(RowTexts(m), '\n');
  }

  // ---------------------------------------------------------------------------------------------
  // Boards in the heap

  /** The grid an array of cells holds. */
  function Cells(a: array2<Cell>): (g: Grid)
    reads a
    ensures |g| == a.Length0 && forall r :: 0 <= r < |g| ==> |g[r]| == a.Length1
    ensures forall r, c :: 0 <= r < a.Length0 && 0 <= c < a.Length1 ==> g[r][c] == a[r, c]
  {
    seq(a.Length0, r reads a requires 0 <= r < a.Length0 =>
      seq(a.Length1, c reads a requires 0 <= c < a.Length1 => a[r, c]))
  }

  /** A grid is the one an array holds when shapes and cells agree. */
  lemma CellsEqual(a: array2<Cell>, g: Grid)
    requires IsBoard(g) && a.Length0 == |g| && a.Length1 == |g[0]|
    requires forall r, c :: 0 <= r < |g| && 0 <= c < |g[0]| ==> a[r, c] == g[r][c]
    ensures Cells(a) == g
  {
    var h := Cells(a);
    forall r | 0 <= r < |g|
      ensures h[r] == g[r]
    {
    }
  }

  /** A non-empty array whose every cell carries its own position. */
  ghost predicate WellFormed(a: array2<Cell>)
    reads a
  {
    a.Length0 >= 1 && a.Length1 >= 1 &&
    forall r, c :: 0 <= r < a.Length0 && 0 <= c < a.Length1 ==> a[r, c].row == r && a[r, c].col == c
  }

  lemma WellFormedCells(a: array2<Cell>)
    requires WellFormed(a)
    ensures IsBoard(Cells(a)) && Placed(Cells(a))
  {
  }

  /** The comprehension of `Board.__init__`: a fresh array with one cell per entry of the matrix. */
  method NewCells(m: seq<seq<int>>) returns (a: array2<Cell>)
    requires IsMatrix(m)
    ensures fresh(a) && WellFormed(a) && Cells(a) == FromStates(m)
  {
    a := new Cell[|m|, |m[0]|]((r, c) requires 0 <= r < |m| && 0 <= c < |m[0]| => Cell(r, c, m[r][c]));
    CellsEqual(a, FromStates(m));
  }

  /** `deepcopy` of an array of cells: a fresh array holding the same cells. */
  method CopyCells(a: array2<Cell>) returns (b: array2<Cell>)
    ensures fresh(b) && Cells(b) == Cells(a)
    ensures b.Length0 == a.Length0 && b.Length1 == a.Length1
  {
    b := new Cell[a.Length0, a.Length1]((r, c) reads a requires 0 <= r < a.Length0 && 0 <= c < a.Length1 => a[r, c]);
    if a.Length0 >= 1 && a.Length1 >= 1 {
      CellsEqual(b, Cells(a));
    }
  }

  /** `Board`: the array of cells it holds in its `board` field. */
  class Board {
    var board: array2<Cell>

    ghost predicate Valid()
      reads this, board
    {
      WellFormed(board)
    }

    /** `Board(m)`: cell (r, c) has row r, column c and state m[r][c]; the shape is m's. */
    constructor (m: seq<seq<int>>)
      requires IsMatrix(m)
      ensures Valid() && fresh(board)
      ensures Cells(board) == FromStates(m)
    {
      var a := NewCells(m);
      board := a;
    }

    /** `repr(board)`: the rows of states, each as a Python list, joined by newlines. */
    function Repr(): (s: string)
      reads this, board
      requires Valid()
      ensures s == MatrixText(States(Cells(board)))
      ensures |Text.Split(s, '\n')| == board.Length0
      ensures Text.Split(s, '\n') == RowTexts(States(Cells(board)))
    {
      WellFormedCells(board);
      SplitMatrixText(States(Cells(board)));
      MatrixText(States(Cells(board)))
    }

    /**
     * `update_board`: a Board argument (non-null here) is deep-copied into a fresh array and true is
     * returned; anything else (null here) is refused with false and the receiver keeps its board.
     * The shapes are not compared: the receiver takes the argument's shape.
     */
    method UpdateBoard(newBoard: Board?) returns (ok: bool)
      requires Valid()
      requires newBoard != null ==> newBoard.Valid()
      modifies this
      ensures Valid()
      ensures ok <==> newBoard != null
      ensures ok ==> fresh(board) && Cells(board) == old(Cells(newBoard.board))
      ensures !ok ==> board == old(board) && Cells(board) == old(Cells(board))
    {
      if newBoard != null {
        board := CopyCells(newBoard.board);
        ok := true;
      } else {
        ok := false;
      }
    }
  }

  /**
   * A client of `update_board`: after copying `source` into `target`, changing `source`'s cells leaves
   * `target` as it was, because the copy shares nothing with its argument.
   */
  method CopyIsIndependent(m: seq<seq<int>>, other: seq<seq<int>>) returns (copied: Grid, later: Grid)
    requires IsMatrix(m) && IsMatrix(other)
    ensures copied == FromStates(m) && later == copied
  {
    var source := new Board(m);
    var target := new Board(other);
    var ok := target.UpdateBoard(source);
    copied := Cells(target.board);
    source.board[0, 0] := source.board[0, 0].(state := 1 - source.board[0, 0].state);
    later := Cells(target.board);
  }
}
