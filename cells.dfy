/** Cells of the block board: what a square holds, its positional label, and the toggle cycle. */
module Cells {

  /** What occupies a square (`'empty' | 'blue' | 'red' | 'green'`). */
  datatype Kind = Empty | Blue | Red | Green

  /** One square: its label, its occupant and whether a blue/red block has come to rest. */
  datatype Cell = Cell(id: int, kind: Kind, stable: bool)

  /** A board: a sequence of rows, each a sequence of cells. */
  type Grid = seq<seq<Cell>>

  /** The toggle order of the four kinds (`blockTypes`). */
  const BlockTypes: seq<Kind> := [Empty, Blue, Red, Green]

  /** Blue and red are the blocks that fall; empty and green never move. */
  predicate IsBlock(k: Kind) {
    k == Blue || k == Red
  }

  /** A blue/red block that has not yet come to rest. */
  predicate Falling(c: Cell) {
    IsBlock(c.kind) && !c.stable
  }

  /** The row-major label of square (i, j) on a board `cols` wide, counted from 1. */
  function Position(cols: nat, i: nat, j: nat): (n: nat) {
    i * cols + j + 1
  }

  /** The fresh empty, unstable square at (i, j). */
  function BlankCell(cols: nat, i: nat, j: nat): (c: Cell) {
    Cell(Position(cols, i, j), Empty, false)
  }

  /** `g` has exactly `rows` rows of `cols` cells each. */
  predicate Shape(g: Grid, rows: nat, cols: nat) {
    |g| == rows && forall i :: 0 <= i < rows ==> |g[i]| == cols
  }

  /** Every green square on the board is marked stable. */
  predicate GreenStable(g: Grid) {
    forall i, j :: 0 <= i < |g| && 0 <= j < |g[i]| && g[i][j].kind == Green ==> g[i][j].stable
  }

  /** `blockTypes.indexOf(type)`: every kind occurs in the list, so the search never fails. */
  function IndexOfKind(k: Kind): (n: nat)
    ensures n < |BlockTypes| && BlockTypes[n] == k
    ensures forall m :: 0 <= m < n ==> BlockTypes[m] != k
  {
    match k
    case Empty => 0
    case Blue => 1
    case Red => 2
    case Green => 3
  }

  /** The kind after `k` in the toggle order, wrapping round at the end. */
  function NextKind(k: Kind): (r: Kind)
    ensures r != k
    ensures IndexOfKind(r) == (IndexOfKind(k) + 1) % |BlockTypes|
  {
    BlockTypes[(IndexOfKind(k) + 1) % |BlockTypes|]
  }

  /** Toggling a square: the next kind, stable exactly when that kind is green or empty, label kept. */
  function Toggled(c: Cell): (t: Cell)
    ensures t.id == c.id && t.kind == NextKind(c.kind)
    ensures t.stable <==> (t.kind == Green || t.kind == Empty)
  {
    var next := NextKind(c.kind);
    c.(kind := next, stable := next == Green || next == Empty)
  }

  /** The toggle cycle is empty -> blue -> red -> green -> empty. */
  lemma ToggleCycle()
    ensures NextKind(Empty) == Blue && NextKind(Blue) == Red
    ensures NextKind(Red) == Green && NextKind(Green) == Empty
  {
  }

  /**
   * Four toggles bring back the kind and the label; they bring back the whole cell exactly when
   * its stable flag already agreed with its kind.
   */
  lemma ToggleFour(c: Cell)
    ensures Toggled(Toggled(Toggled(Toggled(c)))).kind == c.kind
    ensures Toggled(Toggled(Toggled(Toggled(c)))).id == c.id
    ensures Toggled(Toggled(Toggled(Toggled(c)))) == c <==> (c.stable <==> (c.kind == Green || c.kind == Empty))
  {
    ToggleCycle();
  }

  /** A fresh square toggled four times is empty again but now stable. */
  lemma ToggleFourFresh(cols: nat, i: nat, j: nat)
    ensures Toggled(Toggled(Toggled(Toggled(BlankCell(cols, i, j))))) == BlankCell(cols, i, j).(stable := true)
  {
    ToggleCycle();
  }
}
