/** Whole-board operations that do not simulate: the fresh board, resizing and toggling. */
module Grids {
  import opened Cells

  /** `g` is the fresh `rows` x `cols` board: every square empty, unstable and labelled by position. */
  predicate IsBlank(g: Grid, rows: nat, cols: nat) {
    Shape(g, rows, cols) &&
    forall i, j :: 0 <= i < rows && 0 <= j < cols ==> g[i][j] == BlankCell(cols, i, j)
  }

  /** The fresh board as a value. */
  function EmptyGrid(rows: nat, cols: nat): (g: Grid)
    ensures IsBlank(g, rows, cols)
  {
    seq(rows, i requires 0 <= i < rows => seq(cols, j requires 0 <= j < cols => BlankCell(cols, i, j)))
  }

  /** There is only one fresh board of each size. */
  lemma BlankUnique(g: Grid, rows: nat, cols: nat)
    requires IsBlank(g, rows, cols)
    ensures g == EmptyGrid(rows, cols)
  {
    var e := EmptyGrid(rows, cols);
    forall i | 0 <= i < rows
      ensures g[i] == e[i]
    {
    }
  }

  /** The rows of a board laid end to end, top row first. */
  function Flatten(g: Grid): (s: seq<Cell>)
  {
    if |g| == 0 then [] else Flatten(g[..|g| - 1]) + g[|g| - 1]
  }

  /** Read in row-major order, the labels of a fresh board are exactly 1, 2, ..., rows * cols. */
  lemma {:induction false} BlankIdsRowMajor(g: Grid, rows: nat, cols: nat)
    requires IsBlank(g, rows, cols)
    ensures |Flatten(g)| == rows * cols
    ensures forall k :: 0 <= k < rows * cols ==> Flatten(g)[k].id == k + 1
  {
    if rows > 0 {
      var top := g[..rows - 1];
      assert IsBlank(top, rows - 1, cols);
      BlankIdsRowMajor(top, rows - 1, cols);
      var last := g[rows - 1];
      assert Flatten(g) == Flatten(top) + last;
      assert (rows - 1) * cols + cols == rows * cols;
      forall k | 0 <= k < rows * cols
        ensures Flatten(g)[k].id == k + 1
      {
        if k >= (rows - 1) * cols {
          var j := k - (rows - 1) * cols;
          assert Flatten(g)[k] == last[j];
          assert last[j] == BlankCell(cols, rows - 1, j);
        }
      }
    }
  }

  /**
   * `setGridSize`: the new `rows` x `cols` board keeps every old square inside both sizes, relabelled
   * for the new width; every other square is fresh.
   */
  function Resized(g: Grid, oldRows: nat, oldCols: nat, rows: nat, cols: nat): (r: Grid)
    requires Shape(g, oldRows, oldCols)
    ensures Shape(r, rows, cols)
  {
    seq(rows, i requires 0 <= i < rows => seq(cols, j requires 0 <= j < cols =>
      if i < oldRows && j < oldCols then g[i][j].(id := Position(cols, i, j)) else BlankCell(cols, i, j)))
  }

  /** Every square carries its positional label. */
  predicate Positional(g: Grid, rows: nat, cols: nat)
    requires Shape(g, rows, cols)
  {
    forall i, j :: 0 <= i < rows && 0 <= j < cols ==> g[i][j].id == Position(cols, i, j)
  }

  /** After a resize every label is positional again, whatever the labels were before. */
  lemma ResizedPositional(g: Grid, oldRows: nat, oldCols: nat, rows: nat, cols: nat)
    requires Shape(g, oldRows, oldCols)
    ensures Positional(Resized(g, oldRows, oldCols, rows, cols), rows, cols)
  {
  }

  /**
   * Two resizes in a row act as one, as long as the middle size does not cut away anything that
   * both the first and the last size contain.
   */
  lemma ResizeTwice(g: Grid, r0: nat, c0: nat, r1: nat, c1: nat, r2: nat, c2: nat)
    requires Shape(g, r0, c0)
    requires r1 >= r0 || r1 >= r2
    requires c1 >= c0 || c1 >= c2
    ensures Resized(Resized(g, r0, c0, r1, c1), r1, c1, r2, c2) == Resized(g, r0, c0, r2, c2)
  {
    var a := Resized(Resized(g, r0, c0, r1, c1), r1, c1, r2, c2);
    var b := Resized(g, r0, c0, r2, c2);
    forall i | 0 <= i < r2
      ensures a[i] == b[i]
    {
    }
  }

  /** Resizing to the current size changes nothing on a positionally labelled board. */
  lemma ResizeSameSize(g: Grid, rows: nat, cols: nat)
    requires Shape(g, rows, cols) && Positional(g, rows, cols)
    ensures Resized(g, rows, cols, rows, cols) == g
  {
    var r := Resized(g, rows, cols, rows, cols);
    forall i | 0 <= i < rows
      ensures r[i] == g[i]
    {
    }
  }

  /** Growing a positionally labelled board and shrinking it back gives the original board. */
  lemma ResizeGrowShrink(g: Grid, rows: nat, cols: nat, bigRows: nat, bigCols: nat)
    requires Shape(g, rows, cols) && Positional(g, rows, cols)
    requires rows <= bigRows && cols <= bigCols
    ensures Resized(Resized(g, rows, cols, bigRows, bigCols), bigRows, bigCols, rows, cols) == g
  {
    ResizeTwice(g, rows, cols, bigRows, bigCols, rows, cols);
    ResizeSameSize(g, rows, cols);
  }

  /** Resizing a fresh board gives the fresh board of the new size. */
  lemma ResizeBlank(rows: nat, cols: nat, newRows: nat, newCols: nat)
    ensures IsBlank(Resized(EmptyGrid(rows, cols), rows, cols, newRows, newCols), newRows, newCols)
  {
  }

  /** If every green square was stable before a resize, every green square is stable after it. */
  lemma ResizeKeepsGreenStable(g: Grid, oldRows: nat, oldCols: nat, rows: nat, cols: nat)
    requires Shape(g, oldRows, oldCols) && GreenStable(g)
    ensures GreenStable(Resized(g, oldRows, oldCols, rows, cols))
  {
  }

  /** `toggleCell(row, col)`: advances an in-bounds square one step through the cycle; otherwise a no-op. */
  function ToggleAt(g: Grid, rows: nat, cols: nat, row: int, col: int): (r: Grid)
    requires Shape(g, rows, cols)
    ensures Shape(r, rows, cols)
  {
    if 0 <= row < rows && 0 <= col < cols then g[row := g[row][col := Toggled(g[row][col])]] else g
  }

  /** A toggle changes the addressed square as the cycle says and leaves every other square alone. */
  lemma ToggleAtEffect(g: Grid, rows: nat, cols: nat, row: int, col: int)
    requires Shape(g, rows, cols)
    ensures forall i, j :: 0 <= i < rows && 0 <= j < cols ==>
      ToggleAt(g, rows, cols, row, col)[i][j] == if i == row && j == col then Toggled(g[i][j]) else g[i][j]
  {
  }

  /** Four toggles of the same square restore every kind and every label on the board. */
  lemma ToggleAtFour(g: Grid, rows: nat, cols: nat, row: int, col: int)
    requires Shape(g, rows, cols)
    ensures var r := ToggleAt(ToggleAt(ToggleAt(ToggleAt(g, rows, cols, row, col), rows, cols, row, col), rows, cols, row, col), rows, cols, row, col);
      forall i, j :: 0 <= i < rows && 0 <= j < cols ==> r[i][j].kind == g[i][j].kind && r[i][j].id == g[i][j].id
  {
    if 0 <= row < rows && 0 <= col < cols {
      ToggleFour(g[row][col]);
    }
  }

  /** Toggling keeps every green square stable, because a square becomes green only as stable. */
  lemma ToggleKeepsGreenStable(g: Grid, rows: nat, cols: nat, row: int, col: int)
    requires Shape(g, rows, cols) && GreenStable(g)
    ensures GreenStable(ToggleAt(g, rows, cols, row, col))
  {
  }

  // ---------------------------------------------------------------------------------------------
  // Counting blue and red blocks

  /** 1 for a blue or red square, 0 otherwise. */
  function Weight(c: Cell): (w: nat) {
    if IsBlock(c.kind) then 1 else 0
  }

  /** The number of blue and red squares in a row. */
  function CountRow(r: seq<Cell>): (n: nat) {
    if |r| == 0 then 0 else CountRow(r[..|r| - 1]) + Weight(r[|r| - 1])
  }

  /** The number of blue and red squares on a board. */
  function CountBlocks(g: Grid): (n: nat) {
    if |g| == 0 then 0 else CountBlocks(g[..|g| - 1]) + CountRow(g[|g| - 1])
  }

  /** Replacing one square changes a row's count by the difference of the two squares' weights. */
  lemma {:induction false} CountRowUpdate(r: seq<Cell>, j: nat, c: Cell)
    requires j < |r|
    ensures CountRow(r[j := c]) + Weight(r[j]) == CountRow(r) + Weight(c)
  {
    var n := |r|;
    if j == n - 1 {
      assert r[j := c][..n - 1] == r[..n - 1];
    } else {
      assert r[j := c][..n - 1] == r[..n - 1][j := c];
      CountRowUpdate(r[..n - 1], j, c);
    }
  }

  /** Replacing one row changes a board's count by the difference of the two rows' counts. */
  lemma {:induction false} CountBlocksUpdate(g: Grid, i: nat, row: seq<Cell>)
    requires i < |g|
    ensures CountBlocks(g[i := row]) + CountRow(g[i]) == CountBlocks(g) + CountRow(row)
  {
    var n := |g|;
    if i == n - 1 {
      assert g[i := row][..n - 1] == g[..n - 1];
    } else {
      assert g[i := row][..n - 1] == g[..n - 1][i := row];
      CountBlocksUpdate(g[..n - 1], i, row);
    }
  }

  /** A row that is square by square at least as heavy has at least the count. */
  lemma {:induction false} CountRowMono(a: seq<Cell>, b: seq<Cell>)
    requires |a| == |b|
    requires forall k :: 0 <= k < |a| ==> Weight(a[k]) <= Weight(b[k])
    ensures CountRow(a) <= CountRow(b)
  {
    if |a| > 0 {
      CountRowMono(a[..|a| - 1], b[..|b| - 1]);
    }
  }

  /** A board that is square by square at least as heavy has at least the count. */
  lemma {:induction false} CountBlocksMono(a: Grid, b: Grid, rows: nat, cols: nat)
    requires Shape(a, rows, cols) && Shape(b, rows, cols)
    requires forall i, j :: 0 <= i < rows && 0 <= j < cols ==> Weight(a[i][j]) <= Weight(b[i][j])
    ensures CountBlocks(a) <= CountBlocks(b)
  {
    if rows > 0 {
      CountBlocksMono(a[..rows - 1], b[..rows - 1], rows - 1, cols);
      CountRowMono(a[rows - 1], b[rows - 1]);
    }
  }
}
