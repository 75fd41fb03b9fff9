# Game of Life engine and pedestrian-crossing traffic light, modelled in Dafny

The repository holds two small simulations.

The **Game of Life** engine (`Task3`) runs on a toroidal board.
- A board is a fixed-shape grid of cells. Each cell knows its row, its column and its state (1 alive, 0 dead).
- A cell counts its live neighbours by summing the 3x3 window around its position, with edges wrapping round. It then subtracts one when it is itself alive.
- One generation is computed into a scratch board while the current board is only read. The scratch board is then committed by a deep copy.
- The current board can be printed as one Python list of states per line.

The **traffic light** (`Task1`) is a three-state controller for a pedestrian crossing.
- State 1: cars red, pedestrians green.
- State 2: cars green, pedestrians red.
- State 3: cars yellow, pedestrians red.
- The controller waits a fixed number of seconds in each state and cycles 2, 3, 1.
- While cars have green, a press of the pedestrian button ends the wait early and clears the button.
- After every change it logs a status line.

The Dafny project has five modules, one file each:

- `options.dfy` (`Options`): the optional value shared by the other modules: a lookup without an entry, or a count that cannot be taken.
- `text.dfy` (`Text`): the decimal text of an integer as `str` renders it, and its parser. It also holds `str.split` and `str.join` with a one-character separator. The theorems are the round trips `ParseInt(IntText(n)) == n` and `Split(Join(parts)) == parts`.
- `game_elements.dfy` (`GameElements`): covers `Task3/game_elements.py`.
  - The cell, as a datatype.
  - The wrap-around indices and the neighbour count, as functions.
  - The board, as a class over an `array2<Cell>` with its constructor, `Repr` and `UpdateBoard`.
  - The count is proved equal to the textbook eight-neighbour sum on the torus.
  - The text snapshot is proved to tell 0/1 boards apart.
- `game_of_life.dfy` (`GameOfLife`): covers `Task3/game_of_life.py`.
  - This file's own branching neighbour count.
  - The birth/survival rule, and `NextGeneration` as the reference function.
  - The engine, as a class with a current board and a scratch board. `ComputeIter` is two nested loops, proved to leave exactly `NextGeneration` of the untouched current board in the scratch board.
  - The blinker of the unit test is proved to turn in one generation.
- `traffic_lights.dfy` (`TrafficLights`): covers `Task1/traffic_lights.py`.
  - The lights table and its safety: never both green.
  - The polling wait as a reference function `Wait`, implemented by the loop of `AwaitDelay`.
  - The controller as a class with its fields.
  - One pass of the driver loop, and the status line proved readable back into the run time, the state and both lights.

Time is a parameter. A wait is driven by a sequence of elapsed-second readings, one per poll of the clock. It also gets a sequence saying whether the button was pressed (by the GUI thread) before each poll. The run time recorded after a change is a parameter as well.

## Model

| member | source | states |
|---|---|---|
| Text.Digit | Task3/game_elements.py:38 | the digit character of d < 10 is in '0'..'9' and encodes d |
| Text.DigitsText | Task3/game_elements.py:38 | the decimal text of a natural number is a non-empty string of digits; one digit below 10 |
| Text.IntText | Task3/game_elements.py:38 | `str` of an int is non-empty, and all digits for a non-negative number |
| Text.IntTextChars | Task3/game_elements.py:38 | the text of an integer is made of a minus sign and digits only |
| Text.IntTextHasNoSpace | Task1/traffic_lights.py:60 | the text of an integer contains no space, so it stays one word of the status line |
| Text.ParseDigitsText | Task3/game_elements.py:38 | reading back the digits of n gives n |
| Text.ParseIntText | Task3/game_elements.py:38 | the text of every integer is well formed and reads back as that integer |
| Text.DigitText | Task3/game_elements.py:38 | a state 0..9 prints as its single digit |
| Text.Split | Tests/test_game_of_life.py:39 | `split` yields at least one part and no part contains the separator |
| Text.SplitAfter | Tests/test_game_of_life.py:39 | a prefix free of the separator joins the first part of the rest's split |
| Text.Join | Task3/game_elements.py:38 | `sep.join(parts)`, the empty string for no parts; no ensures of its own: `SplitJoin` states that splitting undoes it |
| Text.SplitJoin | Tests/test_game_of_life.py:39 | splitting the join of separator-free parts gives the parts back |
| GameElements.States | Task3/game_elements.py:36-37 | the listed states have the board's shape and at (r, c) the state of the cell there |
| GameElements.FromStates | Task3/game_elements.py:31-33 | the board built from a matrix has its shape, and cell (r, c) has row r, column c and state m[r][c] |
| GameElements.StatesOfFromStates | Task3/game_elements.py:30-37 | listing the states of the board built from a matrix gives the matrix back |
| GameElements.FromStatesOfStates | Task3/game_elements.py:30-33 | a board whose cells carry their positions is the board built from its states |
| GameElements.WrapBefore | Task3/game_elements.py:15-18 | the row above row 0 is the last row, otherwise row - 1: the index is (i - 1) mod n and in range; columns alike |
| GameElements.WrapAfter | Task3/game_elements.py:16-19 | the row below the last row is row 0, otherwise row + 1: the index is (i + 1) mod n and in range; columns alike |
| GameElements.Around | Task3/game_elements.py:21-22 | the three rows (columns) read are valid indices |
| GameElements.CountNeighbours | Task3/game_elements.py:11-26 | `Cell.count_neighbours`: the wrapped 3x3 window sum, less one when the cell is not dead; no ensures of its own: `CountIsRingSum` and `CountNeighboursExcludesSelf` state its property |
| GameElements.RingSumWrapped | Task3/game_elements.py:15-24 | the window on the wrapped indices is the eight toroidal neighbours plus the centre |
| GameElements.CountIsRingSum | Task3/game_elements.py:21-26 | the count is the eight-neighbour torus sum plus the board's centre state, minus one when the cell is not dead |
| GameElements.CountNeighboursExcludesSelf | Task3/game_elements.py:24-26 | for a cell agreeing with a 0/1 board the count is exactly the live toroidal neighbours, within [0, 8] for every shape |
| GameElements.CountPatternExample | Tests/test_game_of_life.py:8-17 | on the test board, cells (0,0), (2,2), (4,0) count 2, 3, 3 |
| GameElements.ItemsText | Task3/game_elements.py:38 | the items of `str(list)`, ", "-separated; no ensures of its own: `ItemsTextLayout` and `ItemsTextHasNoNewline` state its properties |
| GameElements.RowText | Task3/game_elements.py:38 | `str(list)` of a row of states; no ensures of its own: `RowTextAt` and `RowTextInjective` state its properties |
| GameElements.MatrixText | Task3/game_elements.py:38 | the rows' texts joined by newlines; no ensures of its own: `MatrixTextIsJoin`, `SplitMatrixText` and `MatrixTextInjective` state its properties |
| GameElements.ItemsTextLayout | Task3/game_elements.py:38 | the items of a 0/1 row print one character each, three apart |
| GameElements.RowTextAt | Task3/game_elements.py:38 | the k-th state of a 0/1 row sits at position 1 + 3k of its text |
| GameElements.RowTextInjective | Task3/game_elements.py:38 | two 0/1 rows of one length with the same text are equal |
| GameElements.MatrixTextFirstRow | Task3/game_elements.py:38 | a multi-row text is the first row's text, a newline, then the rest's text |
| GameElements.MatrixTextInjective | Task3/game_elements.py:35-38 | two 0/1 boards of one shape have the same text exactly when their states are equal |
| GameElements.RowTexts | Task3/game_elements.py:38 | one list text per row, in row order |
| GameElements.ItemsTextHasNoNewline | Task3/game_elements.py:38 | the items of a list of ints contain no newline |
| GameElements.RowTextHasNoNewline | Task3/game_elements.py:38 | the text of a row is a single line |
| GameElements.MatrixTextIsJoin | Task3/game_elements.py:38 | the snapshot is the rows' texts joined by newlines |
| GameElements.SplitMatrixText | Task3/game_elements.py:38 | splitting the snapshot at newlines gives back the rows' texts, one per row |
| GameElements.Cells | Task3/game_elements.py:31-33 | the snapshot of an array has its shape and its cells |
| GameElements.CellsEqual | Task3/game_elements.py:31-33 | an array and a grid agreeing cell by cell give that snapshot |
| GameElements.WellFormedCells | Task3/game_elements.py:31-33 | an array of placed cells snapshots to a placed board |
| GameElements.NewCells | Task3/game_elements.py:31-33 | a fresh array holding the cells of the board built from the matrix |
| GameElements.CopyCells | Task3/game_elements.py:43 | `deepcopy`: a fresh array of the same shape holding the same cells |
| GameElements.Board.constructor | Task3/game_elements.py:30-33 | the new board is well formed, fresh, and holds `FromStates(m)` |
| GameElements.Board.Repr | Task3/game_elements.py:35-38 | the text has one line per board row, and line r is row r's states as a Python list |
| GameElements.Board.UpdateBoard | Task3/game_elements.py:40-45 | a board argument is deep-copied into a fresh array and true returned; no board (null) returns false and leaves the receiver unchanged |
| GameElements.CopyIsIndependent | Task3/game_elements.py:40-44 | after the copy, changing the argument's cells leaves the receiver's cells as copied |
| GameOfLife.BranchIndices | Task3/game_of_life.py:18-30 | the rows (columns) this variant reads are never negative |
| GameOfLife.CountNeighboursBranching | Task3/game_of_life.py:14-34 | this file's `count_neighbours`, None where numpy raises IndexError; no ensures of its own: `BranchingDefinedIff` and `BranchingAgreesWithWrapped` state its property |
| GameOfLife.BranchingDefinedIff | Task3/game_of_life.py:18-32 | the branching count is defined exactly when the board has at least two rows and two columns |
| GameOfLife.BranchingAgreesWithWrapped | Task3/game_of_life.py:14-34 | where defined, the branching count equals the wrapped count of `game_elements.py` for every position |
| GameOfLife.BranchingFailsOnSingleCell | Task3/game_of_life.py:18-19 | on the 1x1 board [[1]] the branching count fails while the wrapped one gives 8 |
| GameOfLife.NextState | Task3/game_of_life.py:76-81 | the written state is always 0 or 1 |
| GameOfLife.NextStateIsB3S23 | Task3/game_of_life.py:76-81 | for 0/1 states: alive next exactly with 3 neighbours, or with 2 when alive now |
| GameOfLife.NextStateOfOtherState | Task3/game_of_life.py:80-81 | any state other than 0 or 1 falls to the last branch and is written dead |
| GameOfLife.NextGeneration | Task3/game_of_life.py:49-56 | the next generation keeps the shape and the cells' positions, and holds 0/1 states only |
| GameOfLife.NextGenerationIsLife | Task3/game_of_life.py:49-56 | on a 0/1 board, cell (r, c) of the next generation lives exactly when 3, or 2 and itself, of its eight toroidal neighbours live |
| GameOfLife.Generations | Task3/game_of_life.py:61-64 | any number of generations keeps the shape and the positions |
| GameOfLife.NextOfStates | Task3/game_of_life.py:49-56 | one generation read off the state matrix, cell by cell |
| GameOfLife.BlinkerRow0 | Tests/test_game_of_life.py:22-31 | row 0 of the vertical blinker's next generation is row 0 of the horizontal one |
| GameOfLife.BlinkerRow1 | Tests/test_game_of_life.py:22-31 | row 1 likewise |
| GameOfLife.BlinkerRow2 | Tests/test_game_of_life.py:22-31 | row 2 likewise: the three live cells |
| GameOfLife.BlinkerRow3 | Tests/test_game_of_life.py:22-31 | row 3 likewise |
| GameOfLife.BlinkerRow4 | Tests/test_game_of_life.py:22-31 | row 4 likewise |
| GameOfLife.BlinkerTurns | Tests/test_game_of_life.py:21-39 | one generation turns the vertical blinker into exactly the horizontal one |
| GameOfLife.GameEngine.constructor | Task3/game_of_life.py:42-47 | the current board is built from the initial pose, the scratch board is a distinct copy of it, the refresh rate is kept |
| GameOfLife.GameEngine.ApplyGameRules | Task3/game_of_life.py:74-81 | only the scratch cell at the cell's position changes, to the rule's state; the current board is unchanged |
| GameOfLife.GameEngine.ComputeRow | Task3/game_of_life.py:52-56 | the column loop of one row: every scratch cell of that row becomes the next generation's, other rows and the current board stay unchanged |
| GameOfLife.GameEngine.ComputeIter | Task3/game_of_life.py:49-56 | afterwards the scratch board is `NextGeneration` of the current board, which is unchanged |
| GameOfLife.GameEngine.UpdateBoard | Task3/game_of_life.py:70-72 | the current board becomes a fresh value copy of the scratch board, same shape |
| GameOfLife.GameEngine.Iterate | Task3/game_of_life.py:61-64 | one pass of the loop advances the current board by one generation, leaves the scratch board equal to it, and keeps the refresh rate |
| GameOfLife.GameEngine.Run | Task3/game_of_life.py:58-68 | n passes advance the current board by n generations and keep the refresh rate |
| GameOfLife.BlinkerLines | Tests/test_game_of_life.py:39 | the horizontal blinker's text splits at newlines into its five row texts, the lines the test compares |
| GameOfLife.BlinkerComputeIter | Tests/test_game_of_life.py:21-39 | after `compute_iter` on the vertical blinker, the scratch board's text is the horizontal blinker's, and the current board still holds the vertical one |
| TrafficLights.LightsOf | Task1/traffic_lights.py:17-24 | there is an entry exactly for states 1, 2 and 3; every entry is safe; cars are green only in state 2 and pedestrians only in state 1 |
| TrafficLights.SafeIsTable | Task1/traffic_lights.py:17-24 | the safe pairs of lights are exactly the three entries of the table |
| TrafficLights.NeverBothGreen | Task1/traffic_lights.py:17-24 | in every state of the table the two lights are never both green |
| TrafficLights.Wait | Task1/traffic_lights.py:33-41 | the wait ends at the first reading reaching the delay, unless in state 2 a set button ends it first and is cleared; outside a cut the button keeps every press |
| TrafficLights.ButtonKeptOutsideGreen | Task1/traffic_lights.py:35-41 | outside state 2 the wait lasts the full delay and a pressed button stays set |
| TrafficLights.UnpressedGreenRunsFull | Task1/traffic_lights.py:35-41 | in state 2 with no press, the wait runs to the first reading past the delay |
| TrafficLights.Name | Task1/traffic_lights.py:18-23 | the colour strings the table stores; no ensures of its own: `NameRoundTrip` states it is read back by `LightNamed` |
| TrafficLights.CycleWaits | Task1/traffic_lights.py:51-55 | the three waits of one pass, each from the flag the one before left: the first lasts 10 seconds unless it starts in state 2, the second 20 seconds unless the button cut it, which clears the flag, the third 2 seconds, and the flag after it keeps the third wait's presses |
| TrafficLights.UnpressedCycleKeepsFlagClear | Task1/traffic_lights.py:35-41 | a pass that starts with the flag clear and sees no press ends with the flag clear |
| TrafficLights.LightNamed | Task1/traffic_lights.py:18-23 | a recognised colour name names that light |
| TrafficLights.NameRoundTrip | Task1/traffic_lights.py:18-23 | every light's name reads back as the light |
| TrafficLights.InfoWords | Task1/traffic_lights.py:60-62 | the thirteen words of the f-string; no ensures of its own: `InfoWordsHaveNoSpace` states its property |
| TrafficLights.InfoText | Task1/traffic_lights.py:60-62 | the f-string as its words joined by single spaces; no ensures of its own: `InfoRoundTrip` states that it loses nothing |
| TrafficLights.InfoWordsHaveNoSpace | Task1/traffic_lights.py:60-62 | no word of a status line contains a space |
| TrafficLights.InfoSplit | Task1/traffic_lights.py:60-62 | the status line splits at its spaces into exactly its thirteen words |
| TrafficLights.InfoRoundTrip | Task1/traffic_lights.py:58-62 | the status line reads back as its run time, state and both lights |
| TrafficLights.TrafficLight.constructor | Task1/traffic_lights.py:6-11 | starts in state 1, button cleared, cars red, pedestrians green, run time 0, and this is the table's entry for state 1 |
| TrafficLights.TrafficLight.PressButton | Task1/lights_gui.py:60 | the GUI sets the button flag and nothing else |
| TrafficLights.TrafficLight.ChangeLights | Task1/traffic_lights.py:15-27 | the state becomes s; for a table state the lights are the table's; for any other state (the `KeyError`) it reports failure and the lights stay |
| TrafficLights.TrafficLight.AwaitDelay | Task1/traffic_lights.py:33-41 | the polling loop ends as `Wait` says, with the button flag it leaves; nothing else changes |
| TrafficLights.TrafficLight.ChangeState | Task1/traffic_lights.py:31-44 | after a wait as `Wait` says, the state is `dst_state`, the run time is recorded, and the lights are the table's for it |
| TrafficLights.TrafficLight.StateInfo | Task1/traffic_lights.py:58-62 | the status line reads back as the current run time, state and lights |
| TrafficLights.TrafficLight.RunCycle | Task1/traffic_lights.py:46-56 | one pass goes through states 2, 3, 1, logs their status lines in that order, ends in state 1 with cars red, and its waits and the flag it leaves are those of `CycleWaits` |

## Left out

- Wall-clock time (`datetime.now`, `init_time`, `.seconds`) is not modelled: clock readings and the run time are parameters. A wait needs a reading that reaches the delay. The source polls forever without one, unless in state 2 the button ends the wait. The model asks for a reaching reading in that case too; this changes no result, because the readings after the cut are never read.
- The GUI threads race on the pedestrian button. The model reduces this to a sequence of presses, one per poll, so the timing within a poll is not modelled.
- `print`, `console_logs`, `print_iter`, `measure_iter_time` and `time.sleep` are console output and timing, and are left out.
- The JSON configuration file is not read. The initial pose and the refresh rate are given to the engine's constructor, and the `init_array` field is not kept.
- The `neighbours` field `count_neighbours` stores on the cell is left out. No other code reads it.
- GameOfLife.GameEngine.Run: the endless `while True` loop is modelled as a given number of passes.
- TrafficLights.TrafficLight.RunCycle: the endless loop is modelled as one pass.
- GameOfLife.GameEngine.ComputeIter: the contract states the scratch board after the pass, not the order of the visits. The loop invariants carry the row-by-row order.
- Two revisions of the engine disagree on the board type. `game_of_life.py` indexes its board array directly, while the test and the GUI hand it `Board` objects. The model keeps one version: `array2<Cell>` fields indexed by (row, column).
- GameOfLife.GameEngine.ComputeIter counts with `GameElements.CountNeighbours`, the wrapped count. `game_of_life.py`'s own branching count is modelled separately, as `CountNeighboursBranching`. The two agree on boards of at least two rows and two columns; see Findings.
- GameElements.Board.UpdateBoard: the code makes no shape check, so an argument of a different shape is accepted and the receiver takes its shape.
- Cells are values (`datatype Cell`), so two boards can never share a cell object. The aliasing that `deepcopy` rules out by copying the cells themselves (Task3/game_elements.py:43, Task3/game_of_life.py:46, 72) is therefore not modelled: a copy here only needs a fresh array, and `CopyIsIndependent` shows that much.
- "Not a `Board`" is modelled as `null`. Dafny's types rule out other kinds of argument.
- GameElements.Board.Repr: the states print as plain integers ("[0, 1, 0]"). This is numpy's rendering before version 2; NumPy 2 prints "np.int64(0)" inside a list, which is not modelled.
- TrafficLights.InfoText: the f-string is written as its thirteen words joined by single spaces. That is the same text; the round trip is stated on this form.
- TrafficLights.TrafficLight.ChangeLights: in the source, the `KeyError` of a state outside 1..3 propagates out of `change_state`. The model returns `ok == false` after the state has been assigned, as the source assigns it before the lookup.
- Task2/square_root.py (floating point), the GUIs and Utils/utils.py (thread plumbing) are not part of this model.

## Findings

| source | as written | input that shows it | evidently intended | confidence | as-written member | corrected member |
|---|---|---|---|---|---|---|
| Task3/game_of_life.py:18-30 | row 0 takes row + 1 as the row below without checking whether it is also the last row (columns likewise) | a board with one row or one column, e.g. [[1]]: the count for cell (0, 0) indexes row 1 and numpy raises IndexError | wrap round as `game_elements.py` does, so a one-row board is its own neighbour above and below; [[1]] counts 8 | not executed | GameOfLife.BranchingFailsOnSingleCell | GameElements.CountNeighboursExcludesSelf |
