/**
 * `BlockPattern`: the board object the application drives. It owns the board size, the board and
 * the generation counter, and every operation replaces the board and returns it.
 */
module Pattern {
  import opened Cells
  import opened Grids
  import opened Fall
  import opened Generation
  import opened Preset

  class BlockPattern {
    var rows: nat
    var cols: nat
    var grid: Grid
    var generation: nat

    /** The board has the dimensions the object records. */
    predicate Valid()
      reads this
    {
      Shape(grid, rows, cols)
    }

    /** A fresh `rows` x `cols` board (20 x 10 unless told otherwise) at generation 0. */
    constructor(rows: nat := 20, cols: nat := 10)
      ensures Valid()
      ensures this.rows == rows && this.cols == cols
      ensures IsBlank(grid, rows, cols) && generation == 0
    {
      this.rows := rows;
      this.cols := cols;
      grid := [];
      generation := 0;
      new;
      grid := CreateEmptyGrid();
    }

    /** `createEmptyGrid`: builds the fresh board row by row, numbering squares 1, 2, ... as it goes. */
    method CreateEmptyGrid() returns (g: Grid)
      ensures IsBlank(g, rows, cols)
    {
      g := [];
      var cellNumber := 1;
      for i := 0 to rows
        invariant Shape(g, i, cols)
        invariant forall a, b :: 0 <= a < i && 0 <= b < cols ==> g[a][b] == BlankCell(cols, a, b)
        invariant cellNumber == i * cols + 1
      {
        var row: seq<Cell> := [];
        for j := 0 to cols
          invariant |row| == j
          invariant forall b :: 0 <= b < j ==> row[b] == BlankCell(cols, i, b)
          invariant cellNumber == i * cols + j + 1
        {
          row := row + [Cell(cellNumber, Empty, false)];
          cellNumber := cellNumber + 1;
        }
        assert i * cols + cols == (i + 1) * cols;
        g := g + [row];
      }
    }

    /**
     * `setGridSize`: switches to a `newRows` x `newCols` board, carrying over every square that fits
     * in both sizes with its label recomputed for the new width.
     */
    method SetGridSize(newRows: nat, newCols: nat) returns (g: Grid)
      requires Valid()
      modifies this
      ensures Valid()
      ensures rows == newRows && cols == newCols && generation == old(generation)
      ensures grid == Resized(old(grid), old(rows), old(cols), newRows, newCols)
      ensures g == grid
    {
      var oldRows := rows;
      var oldCols := cols;
      rows := newRows;
      cols := newCols;
      var newGrid := CreateEmptyGrid();
      var keepRows := if oldRows < newRows then oldRows else newRows;
      var keepCols := if oldCols < newCols then oldCols else newCols;
      for i := 0 to keepRows
        invariant Shape(newGrid, newRows, newCols)
        invariant forall a, b :: 0 <= a < newRows && 0 <= b < newCols ==>
          newGrid[a][b] == if a < i && b < keepCols then grid[a][b].(id := Position(newCols, a, b)) else BlankCell(newCols, a, b)
      {
        for j := 0 to keepCols
          invariant Shape(newGrid, newRows, newCols)
          invariant forall a, b :: 0 <= a < newRows && 0 <= b < newCols ==>
            newGrid[a][b] == if (a < i || (a == i && b < j)) && b < keepCols then grid[a][b].(id := Position(newCols, a, b)) else BlankCell(newCols, a, b)
        {
          newGrid := newGrid[i := newGrid[i][j := grid[i][j].(id := i * newCols + j + 1)]];
        }
      }
      ghost var want := Resized(grid, oldRows, oldCols, newRows, newCols);
      forall a | 0 <= a < newRows
        ensures newGrid[a] == want[a]
      {
      }
      grid := newGrid;
      g := grid;
    }

    /** `toggleCell`: moves an in-bounds square one step along empty -> blue -> red -> green -> empty. */
    method ToggleCell(row: int, col: int) returns (g: Grid)
      requires Valid()
      modifies this
      ensures Valid()
      ensures rows == old(rows) && cols == old(cols) && generation == old(generation)
      ensures grid == ToggleAt(old(grid), rows, cols, row, col)
      ensures g == grid
    {
      if 0 <= row < rows && 0 <= col < cols {
        var currentType := grid[row][col].kind;
        var typeIndex := IndexOfKind(currentType);
        var nextType := BlockTypes[(typeIndex + 1) % |BlockTypes|];
        grid := grid[row := grid[row][col := grid[row][col].(kind := nextType, stable := nextType == Green || nextType == Empty)]];
      }
      g := grid;
    }

    /**
     * `nextGeneration`: the five phases on a copy of the board, then the counter moves on. Green
     * squares survive, no blue or red block is lost, and stable green stays stable.
     */
    method NextGeneration(o: Oracle) returns (g: Grid)
      requires rows >= 1 && Valid()
      modifies this
      ensures Valid()
      ensures rows == old(rows) && cols == old(cols) && generation == old(generation) + 1
      ensures grid == Next(old(grid), rows, cols, o)
      ensures forall i, j :: 0 <= i < rows && 0 <= j < cols && old(grid)[i][j].kind == Green ==> grid[i][j].kind == Green
      ensures CountBlocks(grid) >= CountBlocks(old(grid))
      ensures old(GreenStable(grid)) ==> GreenStable(grid)
      ensures g == grid
    {
      var newGrid := grid;
      newGrid := SpawnGreenPass(newGrid, rows, cols, o);
      newGrid := FloorPass(grid, newGrid, rows, cols);
      newGrid := FallPass(newGrid, rows, cols);
      newGrid := SpawnPass(newGrid, rows, cols, o);
      newGrid := RecolourPass(newGrid, rows, cols, o);
      forall i, j | 0 <= i < rows && 0 <= j < cols && grid[i][j].kind == Green
        ensures newGrid[i][j].kind == Green
      {
        NextKeepsGreen(grid, rows, cols, o, i, j);
      }
      NextNeverLosesBlocks(grid, rows, cols, o);
      if GreenStable(grid) {
        NextKeepsGreenStable(grid, rows, cols, o);
      }
      grid := newGrid;
      generation := generation + 1;
      g := grid;
    }

    /** `clear`: back to the fresh board of the current size at generation 0. */
    method Clear() returns (g: Grid)
      modifies this
      ensures Valid()
      ensures rows == old(rows) && cols == old(cols)
      ensures IsBlank(grid, rows, cols) && generation == 0
      ensures g == grid
    {
      grid := CreateEmptyGrid();
      generation := 0;
      g := grid;
    }

    /**
     * `loadPattern`: clears the board, paints the top and bottom rows green and paints the six
     * blocks of the layout; every green square of the result is stable.
     */
    method LoadPattern(stableAt: (nat, nat) -> bool) returns (g: Grid)
      requires rows >= 1
      modifies this
      ensures Valid()
      ensures rows == old(rows) && cols == old(cols) && generation == 0
      ensures grid == PresetGrid(rows, cols, stableAt)
      ensures forall i, j :: (i == 0 || i == rows - 1) && 0 <= j < cols ==> grid[i][j] == Cell(Position(cols, i, j), Green, true)
      ensures GreenStable(grid)
      ensures g == grid
    {
      var _ := Clear();
      BlankUnique(grid, rows, cols);
      PaintGreenRow(0);
      PaintGreenRow(rows - 1);
      assert grid == Framed(rows, cols);
      PaintLayout(stableAt);
      forall i, j | (i == 0 || i == rows - 1) && 0 <= j < cols
        ensures grid[i][j] == Cell(Position(cols, i, j), Green, true)
      {
        PresetFrame(rows, cols, stableAt, i, j);
      }
      PresetGreenStable(rows, cols, stableAt);
      g := grid;
    }

    /** `patterns.forEach`: the six blocks, painted in order. */
    method PaintLayout(stableAt: (nat, nat) -> bool)
      requires rows >= 1 && Valid()
      modifies this
      ensures Valid()
      ensures rows == old(rows) && cols == old(cols) && generation == old(generation)
      ensures grid == PaintBlocks(old(grid), rows, cols, Patterns, stableAt)
    {
      for p := 0 to |Patterns|
        invariant rows == old(rows) && cols == old(cols) && generation == old(generation)
        invariant Shape(grid, rows, cols)
        invariant PaintBlocks(grid, rows, cols, Patterns[p..], stableAt) == PaintBlocks(old(grid), rows, cols, Patterns, stableAt)
      {
        assert Patterns[p..][1..] == Patterns[p + 1..];
        PaintBlock(Patterns[p], stableAt);
      }
    }

    /** One of the `loadPattern` loops that turn a whole row green and stable. */
    method PaintGreenRow(i: nat)
      requires Valid() && i < rows
      modifies this
      ensures Valid()
      ensures rows == old(rows) && cols == old(cols) && generation == old(generation)
      ensures grid == GreenRow(old(grid), rows, cols, i)
    {
      for j := 0 to cols
        invariant rows == old(rows) && cols == old(cols) && generation == old(generation)
        invariant |grid| == rows && |grid[i]| == cols
        invariant forall k :: 0 <= k < rows && k != i ==> grid[k] == old(grid)[k]
        invariant forall k :: 0 <= k < cols ==>
          grid[i][k] == if k < j then old(grid)[i][k].(kind := Green, stable := true) else old(grid)[i][k]
      {
        grid := grid[i := grid[i][j := grid[i][j].(kind := Green, stable := true)]];
      }
      assert grid[i] == GreenRow(old(grid), rows, cols, i)[i];
    }

    /** One pass of `patterns.forEach`: every (row, col) of the block, painted where it fits above the floor. */
    method PaintBlock(pattern: Block, stableAt: (nat, nat) -> bool)
      requires rows >= 1 && Valid()
      modifies this
      ensures Valid()
      ensures rows == old(rows) && cols == old(cols) && generation == old(generation)
      ensures grid == PaintRows(old(grid), rows, cols, pattern.rows, pattern, stableAt)
    {
      for r := 0 to |pattern.rows|
        invariant rows == old(rows) && cols == old(cols) && generation == old(generation)
        invariant Shape(grid, rows, cols)
        invariant PaintRows(grid, rows, cols, pattern.rows[r..], pattern, stableAt) ==
                  PaintRows(old(grid), rows, cols, pattern.rows, pattern, stableAt)
      {
        var row := pattern.rows[r];
        assert pattern.rows[r..][1..] == pattern.rows[r + 1..];
        ghost var before := grid;
        for c := 0 to |pattern.cols|
          invariant rows == old(rows) && cols == old(cols) && generation == old(generation)
          invariant Shape(grid, rows, cols)
          invariant PaintCols(grid, rows, cols, row, pattern.cols[c..], pattern.kind, stableAt) ==
                    PaintCols(before, rows, cols, row, pattern.cols, pattern.kind, stableAt)
        {
          var col := pattern.cols[c];
          assert pattern.cols[c..][1..] == pattern.cols[c + 1..];
          if row < rows - 1 && col < cols {
            grid := grid[row := grid[row][col := grid[row][col].(kind := pattern.kind, stable := stableAt(row, col))]];
          }
        }
      }
    }

    /** `getGrid`: the current board. */
    method GetGrid() returns (g: Grid)
      requires Valid()
      ensures g == grid && Shape(g, rows, cols)
    {
      g := grid;
    }
  }
}
