/**
 * The demonstration layout of `loadPattern`: a green floor and ceiling and six rectangles of blue
 * or red blocks. Whether each painted block starts at rest is a coin, `stableAt(row, col)`.
 */
module Preset {
  import opened Cells
  import opened Grids

  datatype Option<T> = None | Some(value: T)

  /** One entry of the layout: every (row, col) with row in `rows` and col in `cols` gets `kind`. */
  datatype Block = Block(rows: seq<nat>, cols: seq<nat>, kind: Kind)

  /** The six blocks, in the order they are painted. */
  const Patterns: seq<Block> := [
    Block([2, 3, 4], [1, 2, 4, 5], Blue),
    Block([2, 3, 4], [6, 8, 9], Red),
    Block([5, 6, 7], [3, 4, 5, 7], Blue),
    Block([5, 6, 7], [8, 9], Red),
    Block([8, 9, 10], [1, 3, 6, 8], Blue),
    Block([8, 9, 10], [2, 4, 7, 9], Red)
  ]

  /** Row i all green and stable, labels kept. */
  function GreenRow(g: Grid, rows: nat, cols: nat, i: nat): (r: Grid)
    requires Shape(g, rows, cols) && i < rows
    ensures Shape(r, rows, cols)
    ensures forall j :: 0 <= j < cols ==> r[i][j].kind == Green && r[i][j].stable && r[i][j].id == g[i][j].id
    ensures forall k :: 0 <= k < rows && k != i ==> r[k] == g[k]
  {
    g[i := seq(cols, j requires 0 <= j < cols => g[i][j].(kind := Green, stable := true))]
  }

  /** One target square, painted only above the floor and inside the board's width. */
  function PaintCell(g: Grid, rows: nat, cols: nat, row: nat, col: nat, k: Kind, stableAt: (nat, nat) -> bool): (r: Grid)
    requires rows >= 1 && Shape(g, rows, cols)
    ensures Shape(r, rows, cols)
  {
    if row < rows - 1 && col < cols then
      g[row := g[row][col := g[row][col].(kind := k, stable := stableAt(row, col))]]
    else g
  }

  /** `pattern.cols.forEach(...)` for one row. */
  function PaintCols(g: Grid, rows: nat, cols: nat, row: nat, cs: seq<nat>, k: Kind, stableAt: (nat, nat) -> bool): (r: Grid)
    requires rows >= 1 && Shape(g, rows, cols)
    ensures Shape(r, rows, cols)
    decreases |cs|
  {
    if |cs| == 0 then g
    else PaintCols(PaintCell(g, rows, cols, row, cs[0], k, stableAt), rows, cols, row, cs[1..], k, stableAt)
  }

  /** `pattern.rows.forEach(...)` for one block. */
  function PaintRows(g: Grid, rows: nat, cols: nat, rs: seq<nat>, b: Block, stableAt: (nat, nat) -> bool): (r: Grid)
    requires rows >= 1 && Shape(g, rows, cols)
    ensures Shape(r, rows, cols)
    decreases |rs|
  {
    if |rs| == 0 then g
    else PaintRows(PaintCols(g, rows, cols, rs[0], b.cols, b.kind, stableAt), rows, cols, rs[1..], b, stableAt)
  }

  /** `patterns.forEach(...)`. */
  function PaintBlocks(g: Grid, rows: nat, cols: nat, bs: seq<Block>, stableAt: (nat, nat) -> bool): (r: Grid)
    requires rows >= 1 && Shape(g, rows, cols)
    ensures Shape(r, rows, cols)
    decreases |bs|
  {
    if |bs| == 0 then g
    else PaintBlocks(PaintRows(g, rows, cols, bs[0].rows, bs[0], stableAt), rows, cols, bs[1..], stableAt)
  }

  /** The fresh board with a green top row and then a green bottom row. */
  function Framed(rows: nat, cols: nat): (r: Grid)
    requires rows >= 1
    ensures Shape(r, rows, cols)
  {
    GreenRow(GreenRow(EmptyGrid(rows, cols), rows, cols, 0), rows, cols, rows - 1)
  }

  /** The board `loadPattern` leaves. */
  function PresetGrid(rows: nat, cols: nat, stableAt: (nat, nat) -> bool): (r: Grid)
    requires rows >= 1
    ensures Shape(r, rows, cols)
  {
    PaintBlocks(Framed(rows, cols), rows, cols, Patterns, stableAt)
  }

  // ---------------------------------------------------------------------------------------------
  // Which block paints a square

  predicate Covers(b: Block, i: nat, j: nat) {
    i in b.rows && j in b.cols
  }

  /** The kind of the last block of `bs` that covers (i, j): the paint that ends up there. */
  function CoverKind(bs: seq<Block>, i: nat, j: nat): (k: Option<Kind>)
    ensures k.Some? <==> exists b :: b in bs && Covers(b, i, j)
    ensures k.Some? ==> exists b :: b in bs && Covers(b, i, j) && b.kind == k.value
    decreases |bs|
  {
    if |bs| == 0 then None
    else
      var later := CoverKind(bs[1..], i, j);
      assert forall b :: b in bs[1..] ==> b in bs;
      assert forall b :: b in bs ==> b == bs[0] || b in bs[1..];
      if later.Some? then later
      else if Covers(bs[0], i, j) then Some(bs[0].kind)
      else None
  }

  /** When every block of `bs` is blue or red, so is any paint they leave. */
  lemma CoverKindBlock(bs: seq<Block>, i: nat, j: nat)
    requires forall b :: b in bs ==> IsBlock(b.kind)
    ensures CoverKind(bs, i, j).Some? ==> IsBlock(CoverKind(bs, i, j).value)
  {
  }

  predicate Shares(a: seq<nat>, b: seq<nat>) {
    exists x :: x in a && x in b
  }

  /** No square is covered by two blocks of `bs`. */
  predicate Disjoint(bs: seq<Block>) {
    forall x, y :: 0 <= x < y < |bs| ==> !Shares(bs[x].rows, bs[y].rows) || !Shares(bs[x].cols, bs[y].cols)
  }

  /** None of the six blocks reaches the top row, and all of them are blue or red. */
  lemma PatternsShape()
    ensures forall b :: b in Patterns ==> 0 !in b.rows && IsBlock(b.kind)
  {
  }

  /** `s` lists no value twice. */
  predicate NoRepeats(s: seq<nat>) {
    forall x, y :: 0 <= x < y < |s| ==> s[x] != s[y]
  }

  /** Within each of the six blocks, no row and no column is listed twice. */
  lemma PatternsNoRepeats()
    ensures forall b :: b in Patterns ==> NoRepeats(b.rows) && NoRepeats(b.cols)
  {
    assert NoRepeats([2, 3, 4]) && NoRepeats([5, 6, 7]) && NoRepeats([8, 9, 10]);
    assert NoRepeats([1, 2, 4, 5]) && NoRepeats([6, 8, 9]) && NoRepeats([3, 4, 5, 7]);
    assert NoRepeats([8, 9]) && NoRepeats([1, 3, 6, 8]) && NoRepeats([2, 4, 7, 9]);
  }

  /** The six blocks never overlap: each pair differs in all rows or in all columns. */
  lemma PatternsDisjoint()
    ensures Disjoint(Patterns)
  {
    var top, middle, low := [2, 3, 4], [5, 6, 7], [8, 9, 10];
    assert !Shares(top, middle) && !Shares(top, low) && !Shares(middle, low);
    assert !Shares([1, 2, 4, 5], [6, 8, 9]);
    assert !Shares([3, 4, 5, 7], [8, 9]);
    assert !Shares([1, 3, 6, 8], [2, 4, 7, 9]);
    forall x, y | 0 <= x < y < |Patterns|
      ensures !Shares(Patterns[x].rows, Patterns[y].rows) || !Shares(Patterns[x].cols, Patterns[y].cols)
    {
      if x / 2 == y / 2 {
        assert y == x + 1 && x % 2 == 0;
      } else {
        assert Patterns[x].rows == (if x / 2 == 0 then top else if x / 2 == 1 then middle else low);
        assert Patterns[y].rows == (if y / 2 == 0 then top else if y / 2 == 1 then middle else low);
      }
    }
  }

  /** In a disjoint list, the paint on a covered square is that of the block covering it. */
  lemma {:induction false} CoverKindDisjoint(bs: seq<Block>, b: Block, i: nat, j: nat)
    requires Disjoint(bs) && b in bs && Covers(b, i, j)
    ensures CoverKind(bs, i, j) == Some(b.kind)
    decreases |bs|
  {
    var tail := bs[1..];
    assert Disjoint(tail) by {
      forall x, y | 0 <= x < y < |tail|
        ensures !Shares(tail[x].rows, tail[y].rows) || !Shares(tail[x].cols, tail[y].cols)
      {
        assert tail[x] == bs[x + 1] && tail[y] == bs[y + 1];
      }
    }
    if b == bs[0] {
      forall b' | b' in tail
        ensures !Covers(b', i, j)
      {
        var y :| 0 <= y < |tail| && tail[y] == b';
        assert bs[y + 1] == b';
        assert !Shares(b.rows, b'.rows) || !Shares(b.cols, b'.cols);
      }
    } else {
      assert b in tail;
      CoverKindDisjoint(tail, b, i, j);
    }
  }

  // ---------------------------------------------------------------------------------------------
  // What the painting functions do to one square

  lemma {:induction false} PaintColsEffect(g: Grid, rows: nat, cols: nat, row: nat, cs: seq<nat>, k: Kind,
                                           stableAt: (nat, nat) -> bool, i: nat, j: nat)
    requires rows >= 1 && Shape(g, rows, cols) && i < rows && j < cols
    ensures PaintCols(g, rows, cols, row, cs, k, stableAt)[i][j] ==
      if i == row && j in cs && i < rows - 1 then g[i][j].(kind := k, stable := stableAt(i, j)) else g[i][j]
    decreases |cs|
  {
    if |cs| > 0 {
      var h := PaintCell(g, rows, cols, row, cs[0], k, stableAt);
      PaintColsEffect(h, rows, cols, row, cs[1..], k, stableAt, i, j);
      assert j in cs <==> j == cs[0] || j in cs[1..];
    }
  }

  lemma {:induction false} PaintRowsEffect(g: Grid, rows: nat, cols: nat, rs: seq<nat>, b: Block,
                                           stableAt: (nat, nat) -> bool, i: nat, j: nat)
    requires rows >= 1 && Shape(g, rows, cols) && i < rows && j < cols
    ensures PaintRows(g, rows, cols, rs, b, stableAt)[i][j] ==
      if i in rs && j in b.cols && i < rows - 1 then g[i][j].(kind := b.kind, stable := stableAt(i, j)) else g[i][j]
    decreases |rs|
  {
    if |rs| > 0 {
      var h := PaintCols(g, rows, cols, rs[0], b.cols, b.kind, stableAt);
      PaintColsEffect(g, rows, cols, rs[0], b.cols, b.kind, stableAt, i, j);
      PaintRowsEffect(h, rows, cols, rs[1..], b, stableAt, i, j);
      assert i in rs <==> i == rs[0] || i in rs[1..];
    }
  }

  lemma {:induction false} PaintBlocksEffect(g: Grid, rows: nat, cols: nat, bs: seq<Block>,
                                             stableAt: (nat, nat) -> bool, i: nat, j: nat)
    requires rows >= 1 && Shape(g, rows, cols) && i < rows && j < cols
    ensures PaintBlocks(g, rows, cols, bs, stableAt)[i][j] ==
      if i < rows - 1 && CoverKind(bs, i, j).Some?
      then g[i][j].(kind := CoverKind(bs, i, j).value, stable := stableAt(i, j))
      else g[i][j]
    decreases |bs|
  {
    if |bs| > 0 {
      var h := PaintRows(g, rows, cols, bs[0].rows, bs[0], stableAt);
      PaintRowsEffect(g, rows, cols, bs[0].rows, bs[0], stableAt, i, j);
      PaintBlocksEffect(h, rows, cols, bs[1..], stableAt, i, j);
    }
  }

  // ---------------------------------------------------------------------------------------------
  // The layout

  /** The framed board: green top and bottom rows, fresh squares between. */
  lemma FramedCell(rows: nat, cols: nat, i: nat, j: nat)
    requires rows >= 1 && i < rows && j < cols
    ensures Framed(rows, cols)[i][j] ==
      if i == 0 || i == rows - 1 then Cell(Position(cols, i, j), Green, true) else BlankCell(cols, i, j)
  {
  }

  /** Top and bottom rows are green and stable, labels positional. */
  lemma PresetFrame(rows: nat, cols: nat, stableAt: (nat, nat) -> bool, i: nat, j: nat)
    requires rows >= 1 && (i == 0 || i == rows - 1) && j < cols
    ensures PresetGrid(rows, cols, stableAt)[i][j] == Cell(Position(cols, i, j), Green, true)
  {
    PatternsShape();
    assert CoverKind(Patterns, 0, j).None?;
    FramedCell(rows, cols, i, j);
    PaintBlocksEffect(Framed(rows, cols), rows, cols, Patterns, stableAt, i, j);
  }

  /** Every target above the floor and inside the width holds its block's kind, with its coin as flag. */
  lemma PresetTargets(rows: nat, cols: nat, stableAt: (nat, nat) -> bool, b: Block, i: nat, j: nat)
    requires rows >= 1 && b in Patterns && Covers(b, i, j) && i < rows - 1 && j < cols
    ensures PresetGrid(rows, cols, stableAt)[i][j] == Cell(Position(cols, i, j), b.kind, stableAt(i, j))
  {
    PatternsShape();
    PatternsDisjoint();
    assert i != 0;
    CoverKindDisjoint(Patterns, b, i, j);
    FramedCell(rows, cols, i, j);
    PaintBlocksEffect(Framed(rows, cols), rows, cols, Patterns, stableAt, i, j);
  }

  /** Every other square strictly between the green rows is fresh. */
  lemma PresetElsewhere(rows: nat, cols: nat, stableAt: (nat, nat) -> bool, i: nat, j: nat)
    requires rows >= 1 && 0 < i < rows - 1 && j < cols
    requires forall b :: b in Patterns ==> !Covers(b, i, j)
    ensures PresetGrid(rows, cols, stableAt)[i][j] == BlankCell(cols, i, j)
  {
    FramedCell(rows, cols, i, j);
    PaintBlocksEffect(Framed(rows, cols), rows, cols, Patterns, stableAt, i, j);
  }

  /** A green square of the preset board is on the top or bottom row, hence stable. */
  lemma PresetCellGreenStable(rows: nat, cols: nat, stableAt: (nat, nat) -> bool, i: nat, j: nat)
    requires rows >= 1 && i < rows && j < cols
    ensures PresetGrid(rows, cols, stableAt)[i][j].kind == Green ==> PresetGrid(rows, cols, stableAt)[i][j].stable
  {
    var f := Framed(rows, cols);
    var k := CoverKind(Patterns, i, j);
    FramedCell(rows, cols, i, j);
    PaintBlocksEffect(f, rows, cols, Patterns, stableAt, i, j);
    PatternsShape();
    CoverKindBlock(Patterns, i, j);
    assert k.Some? ==> IsBlock(k.value);
  }

  /** On the preset board every green square is stable. */
  lemma PresetGreenStable(rows: nat, cols: nat, stableAt: (nat, nat) -> bool)
    requires rows >= 1
    ensures GreenStable(PresetGrid(rows, cols, stableAt))
  {
    var g: Grid := PresetGrid(rows, cols, stableAt);
    forall i, j | 0 <= i < |g| && 0 <= j < |g[i]|
      ensures g[i][j].kind == Green ==> g[i][j].stable
    {
      PresetCellGreenStable(rows, cols, stableAt, i, j);
    }
  }
}
